/** The sample usage at the end of bodystructure.py: the FETCH response it
    parses, the groups the scanner yields for it, the merged entries and
    the listing documented as its output (each tab shown there as eight
    spaces). */
module BodyStructureSample {
  import opened Results
  import opened Text
  import opened BodyPatterns
  import opened BodyStructure

  // The subtypes of the sample's containers.
  const Mixed := "MIXED"
  const Related := "RELATED"
  const Alternative := "ALTERNATIVE"

  /** A double-quoted word followed by the rest of a text. */
  function Quoted(word: string, rest: string): (t: string)
    ensures |t| == |word| + 2 + |rest|
    ensures t[0] == '"' && t[1..1 + |word|] == word && t[1 + |word|] == '"'
    ensures t[2 + |word|..] == rest
  {
    "\"" + word + "\"" + rest
  }

  // The leaf texts, built from their fields: type and subtype, the
  // parenthesized parameter list, and the remaining fields.
  const Charset := Quoted("charset", " \"US-ASCII\"")
  const TextPlain := Quoted("TEXT", " \"PLAIN\"  (" + Charset + ") NIL NIL \"QUOTED-PRINTABLE\" 2210 76")
  const TextHtml := Quoted("TEXT", " \"HTML\"  (" + Charset + ") NIL NIL \"QUOTED-PRINTABLE\"3732 99")
  const Name1 := Quoted("name", " \"pic00041.gif\"")
  const Image1 := Quoted("IMAGE", " \"GIF\"  (" + Name1 + ") \"<2__=07BBFD03DDC66BF58f9e8a93@" + "domain.org>\" NIL \"BASE64\" 1722")
  const Name2 := Quoted("name", " \"ecblank.gif\"")
  const Image2 := Quoted("IMAGE", " \"GIF\"  (" + Name2 + ") \"<3__=07BBFD43DFC66BF58f9e8a93@" + "domain.org>\" NIL \"BASE64\" 64")
  const Name3 := Quoted("name", " \"Quote_VLQ5069.pdf\"")
  const Pdf := Quoted("APPLICATION", " \"PDF\"  (" + Name3 + ") \"<1__=07BBED03DFC66BF58f9e8a93@" + "domain.org>\" NIL \"BASE64\" 59802")

  // The texts between the parentheses of the three containers and of the
  // BODY item itself.
  const AltText := "(" + TextPlain + ")(" + TextHtml + ") \"" + Alternative + "\""
  const RelText := "(" + AltText + ")(" + Image1 + ")(" + Image2 + ") \"" + Related + "\""
  const MixText := "(" + RelText + ")(" + Pdf + ") \"" + Mixed + "\""
  const BodyText := "BODY (" + MixText + ")"

  /** The FETCH response the sample parses. */
  const SampleBody := "3 (" + BodyText + ")"

  /** The groups of a container holding two leaves with one parameter list
      each, at depth `d`: the first parameter list, the first leaf, the
      second parameter list, the second leaf carrying the container's
      subtype, then the container. */
  function TwoLeafGroups(p1: string, t1: string, p2: string, t2: string, ct: string, sub: string, d: nat): (gs: seq<RawGroup>)
    requires d >= 1
    ensures |gs| == 5 && gs[3].subtype == sub && gs[4].depth == d - 1
  {
    [RawGroup("", d + 1, p1), RawGroup("", d, t1), RawGroup("", d + 1, p2), RawGroup(sub, d, t2), RawGroup("", d - 1, ct)]
  }

  /** The groups closing a container whose last leaf, at depth `d`, has a
      parameter list: the parameter list, the leaf carrying the container's
      subtype, the container, then the group around it. */
  function LastLeafGroups(p: string, t: string, ct: string, outer: string, sub: string, d: nat): (gs: seq<RawGroup>)
    requires d >= 2
    ensures |gs| == 4 && gs[1].subtype == sub && gs[3].depth == d - 2
  {
    [RawGroup("", d + 1, p), RawGroup(sub, d, t), RawGroup("", d - 1, ct), RawGroup("", d - 2, outer)]
  }

  /** The groups parse_parts yields for SampleBody, one per ")" in closing
      order: each parameter list, each leaf (with a subtype when its
      container's keyword follows its ")"), each container and the BODY
      item. The ALTERNATIVE container and what it holds come first, then
      the rest of the RELATED one, then the rest of the MIXED one and the
      BODY item. */
  const AltGroups := TwoLeafGroups(Charset, TextPlain, Charset, TextHtml, AltText, Alternative, 4)
  const RelGroups := TwoLeafGroups(Name1, Image1, Name2, Image2, RelText, Related, 3)
  const MixGroups := LastLeafGroups(Name3, Pdf, MixText, BodyText, Mixed, 2)
  const SampleGroups: seq<RawGroup> := AltGroups + RelGroups + MixGroups

  /** The merged entries of the sample, as parse_bodystructure hands them
      to add_part_nums: a MIXED container holding a RELATED container and
      a PDF; the RELATED one holds an ALTERNATIVE container of a plain and
      an HTML text, then two images. */
  const SampleParts: seq<Entry> := [
    Entry(1, Mixed), Entry(2, Related), Entry(3, Alternative),
    Entry(4, TextPlain), Entry(4, TextHtml), Entry(3, Image1), Entry(3, Image2), Entry(2, Pdf)]

  /** The listing documented as the sample's output, with its tabs. */
  const SampleLines: seq<string> := [
    "MULTIPART/" + Mixed,
    "\t1 " + ("MULTIPART/" + Related),
    "\t\t1.1 " + ("MULTIPART/" + Alternative),
    "\t\t\t1.1.1 " + TextPlain,
    "\t\t\t1.1.2 " + TextHtml,
    "\t\t1.2 " + Image1,
    "\t\t1.3 " + Image2,
    "\t2 " + Pdf]

  /** A text that starts with a double quote is never relabelled. */
  lemma QuotedTextKept(text: string)
    requires text != [] && text[0] == '"'
    ensures Label(text) == text
  {
    QuoteNotSubtype(Upper(text), 0);
  }

  /** The depth counters after each entry. */
  lemma ShapeCounters(p: seq<Entry>)
    requires |p| == 8 && p[0].depth == 1 && p[1].depth == 2 && p[2].depth == 3 && p[3].depth == 4
    requires p[4].depth == 4 && p[5].depth == 3 && p[6].depth == 3 && p[7].depth == 2
    ensures forall d :: CountDepth(p[..2], d) == (if d == 1 || d == 2 then 1 else 0)
    ensures forall d :: CountDepth(p[..3], d) == (if 1 <= d <= 3 then 1 else 0)
    ensures forall d :: CountDepth(p[..4], d) == (if 1 <= d <= 4 then 1 else 0)
    ensures forall d :: CountDepth(p[..5], d) == (if 1 <= d <= 3 then 1 else if d == 4 then 2 else 0)
    ensures forall d :: CountDepth(p[..6], d) == (if 1 <= d <= 2 then 1 else if d == 3 || d == 4 then 2 else 0)
    ensures forall d :: CountDepth(p[..7], d) == (if 1 <= d <= 2 then 1 else if d == 3 then 3 else if d == 4 then 2 else 0)
    ensures forall d :: CountDepth(p[..8], d) == (if d == 1 then 1 else if d == 2 || d == 4 then 2 else if d == 3 then 3 else 0)
  {
    assert p[..0] == [];
    forall d ensures CountDepth(p[..1], d) == (if d == 1 then 1 else 0) { CountDepthStep(p, 0, d); }
    forall d ensures CountDepth(p[..2], d) == (if d == 1 || d == 2 then 1 else 0) { CountDepthStep(p, 1, d); }
    forall d ensures CountDepth(p[..3], d) == (if 1 <= d <= 3 then 1 else 0) { CountDepthStep(p, 2, d); }
    forall d ensures CountDepth(p[..4], d) == (if 1 <= d <= 4 then 1 else 0) { CountDepthStep(p, 3, d); }
    forall d ensures CountDepth(p[..5], d) == (if 1 <= d <= 3 then 1 else if d == 4 then 2 else 0) { CountDepthStep(p, 4, d); }
    forall d ensures CountDepth(p[..6], d) == (if 1 <= d <= 2 then 1 else if d == 3 || d == 4 then 2 else 0) { CountDepthStep(p, 5, d); }
    forall d ensures CountDepth(p[..7], d) == (if 1 <= d <= 2 then 1 else if d == 3 then 3 else if d == 4 then 2 else 0) { CountDepthStep(p, 6, d); }
    forall d ensures CountDepth(p[..8], d) == (if d == 1 then 1 else if d == 2 || d == 4 then 2 else if d == 3 then 3 else 0) { CountDepthStep(p, 7, d); }
  }

  /** The part numbers add_part_nums gives the entries. */
  lemma ShapeNumbers(p: seq<Entry>)
    requires |p| == 8 && p[0].depth == 1 && p[1].depth == 2 && p[2].depth == 3 && p[3].depth == 4
    requires p[4].depth == 4 && p[5].depth == 3 && p[6].depth == 3 && p[7].depth == 2
    ensures DottedNumber(PartNumber(p, 1)) == "1"
    ensures DottedNumber(PartNumber(p, 2)) == "1.1"
    ensures DottedNumber(PartNumber(p, 3)) == "1.1.1"
    ensures DottedNumber(PartNumber(p, 4)) == "1.1.2"
    ensures DottedNumber(PartNumber(p, 5)) == "1.2"
    ensures DottedNumber(PartNumber(p, 6)) == "1.3"
    ensures DottedNumber(PartNumber(p, 7)) == "2"
  {
    ShapeCounters(p);
    assert PartNumber(p, 1) == [1];
    assert PartNumber(p, 2) == [1] + [1];
    assert PartNumber(p, 3) == [1] + ([1] + [1]);
    assert PartNumber(p, 4) == [1] + ([1] + [2]);
    assert PartNumber(p, 5) == [1] + [2];
    assert PartNumber(p, 6) == [1] + [3];
    assert PartNumber(p, 7) == [2];
    DottedNumberCons(1, []);
    DottedNumberCons(2, []);
    DottedNumberCons(3, []);
    DottedNumberCons(1, [1]);
    DottedNumberCons(1, [2]);
    DottedNumberCons(1, [3]);
    DottedNumberCons(1, [1] + [1]);
    DottedNumberCons(1, [1] + [2]);
  }

  /** The indentation and number in front of each caption below the top. */
  lemma TabPrefixes()
    ensures Repeat('\t', 1) + "1" + " " == "\t1 "
    ensures Repeat('\t', 2) + "1.1" + " " == "\t\t1.1 "
    ensures Repeat('\t', 3) + "1.1.1" + " " == "\t\t\t1.1.1 "
    ensures Repeat('\t', 3) + "1.1.2" + " " == "\t\t\t1.1.2 "
    ensures Repeat('\t', 2) + "1.2" + " " == "\t\t1.2 "
    ensures Repeat('\t', 2) + "1.3" + " " == "\t\t1.3 "
    ensures Repeat('\t', 1) + "2" + " " == "\t2 "
  {
  }

  /** The line of a container marker below the top. */
  lemma MarkerLine(p: seq<Entry>, k: nat, number: string, prefix: string)
    requires k < |p| && p[k].depth > 1
    requires UpperSubtype(p[k].text)
    requires DottedNumber(PartNumber(p, k)) == number
    requires Repeat('\t', p[k].depth - 1) + number + " " == prefix
    ensures LineOf(p, k) == prefix + ("MULTIPART/" + p[k].text)
  {
    SubtypeLabel(p[k].text);
    LineShape(p, k);
  }

  /** The depths of the sample's entries, in order. */
  predicate SampleShape(p: seq<Entry>) {
    |p| == 8 && p[0].depth == 1 && p[1].depth == 2 && p[2].depth == 3 && p[3].depth == 4
    && p[4].depth == 4 && p[5].depth == 3 && p[6].depth == 3 && p[7].depth == 2
  }

  /** A subtype name written in upper case. */
  predicate UpperSubtype(t: string) {
    Member(t, Subtypes) && forall i :: 0 <= i < |t| ==> !('a' <= t[i] <= 'z')
  }

  /** The header lines: the container markers. */
  lemma ShapeMarkerLines(p: seq<Entry>)
    requires SampleShape(p) && UpperSubtype(p[0].text) && UpperSubtype(p[1].text) && UpperSubtype(p[2].text)
    ensures LineOf(p, 0) == "MULTIPART/" + p[0].text
    ensures LineOf(p, 1) == "\t1 " + ("MULTIPART/" + p[1].text)
    ensures LineOf(p, 2) == "\t\t1.1 " + ("MULTIPART/" + p[2].text)
  {
    ShapeNumbers(p);
    TabPrefixes();
    SubtypeLabel(p[0].text);
    LineShape(p, 0);
    MarkerLine(p, 1, "1", "\t1 ");
    MarkerLine(p, 2, "1.1", "\t\t1.1 ");
  }

  /** Upper-casing leaves a text without lower-case letters alone. */
  lemma UpperKeeps(t: string)
    requires forall i :: 0 <= i < |t| ==> !('a' <= t[i] <= 'z')
    ensures Upper(t) == t
  {
  }

  /** A subtype name written in upper case is shown as MULTIPART/ and the
      name. */
  lemma SubtypeLabel(t: string)
    requires UpperSubtype(t)
    ensures Label(t) == "MULTIPART/" + t
  {
    UpperKeeps(t);
  }

  /** The line of a leaf entry. */
  lemma LeafLine(p: seq<Entry>, k: nat, number: string, prefix: string)
    requires k < |p| && p[k].depth > 1 && p[k].text != [] && p[k].text[0] == '"'
    requires DottedNumber(PartNumber(p, k)) == number
    requires Repeat('\t', p[k].depth - 1) + number + " " == prefix
    ensures LineOf(p, k) == prefix + p[k].text
  {
    QuotedTextKept(p[k].text);
    LineShape(p, k);
  }

  /** The leaf lines. */
  lemma ShapeLeafLines(p: seq<Entry>)
    requires SampleShape(p)
    requires forall k :: 3 <= k < 8 ==> p[k].text != [] && p[k].text[0] == '"'
    ensures LineOf(p, 3) == "\t\t\t1.1.1 " + p[3].text
    ensures LineOf(p, 4) == "\t\t\t1.1.2 " + p[4].text
    ensures LineOf(p, 5) == "\t\t1.2 " + p[5].text
    ensures LineOf(p, 6) == "\t\t1.3 " + p[6].text
    ensures LineOf(p, 7) == "\t2 " + p[7].text
  {
    ShapeNumbers(p);
    TabPrefixes();
    LeafLine(p, 3, "1.1.1", "\t\t\t1.1.1 ");
    LeafLine(p, 4, "1.1.2", "\t\t\t1.1.2 ");
    LeafLine(p, 5, "1.2", "\t\t1.2 ");
    LeafLine(p, 6, "1.3", "\t\t1.3 ");
    LeafLine(p, 7, "2", "\t2 ");
  }

  /** The listing shown for the sample, in terms of the entries' texts. */
  function ShapeLines(p: seq<Entry>): seq<string>
    requires |p| == 8
  {
    [ "MULTIPART/" + p[0].text,
      "\t1 " + ("MULTIPART/" + p[1].text),
      "\t\t1.1 " + ("MULTIPART/" + p[2].text),
      "\t\t\t1.1.1 " + p[3].text,
      "\t\t\t1.1.2 " + p[4].text,
      "\t\t1.2 " + p[5].text,
      "\t\t1.3 " + p[6].text,
      "\t2 " + p[7].text]
  }

  lemma ShapeLinesAt(p: seq<Entry>)
    requires |p| == 8
    ensures |ShapeLines(p)| == 8
    ensures ShapeLines(p)[0] == "MULTIPART/" + p[0].text
    ensures ShapeLines(p)[1] == "\t1 " + ("MULTIPART/" + p[1].text)
    ensures ShapeLines(p)[2] == "\t\t1.1 " + ("MULTIPART/" + p[2].text)
    ensures ShapeLines(p)[3] == "\t\t\t1.1.1 " + p[3].text
    ensures ShapeLines(p)[4] == "\t\t\t1.1.2 " + p[4].text
    ensures ShapeLines(p)[5] == "\t\t1.2 " + p[5].text
    ensures ShapeLines(p)[6] == "\t\t1.3 " + p[6].text
    ensures ShapeLines(p)[7] == "\t2 " + p[7].text
  {
  }

  /** Entries shaped like the sample, with upper-case subtype names on the
      markers and quoted leaf texts, are listed as the sample's output
      shows. */
  lemma ShapeListing(p: seq<Entry>)
    requires SampleShape(p) && UpperSubtype(p[0].text) && UpperSubtype(p[1].text) && UpperSubtype(p[2].text)
    requires forall k :: 3 <= k < 8 ==> p[k].text != [] && p[k].text[0] == '"'
    ensures NumberedLines(p) == ShapeLines(p)
  {
    ShapeMarkerLines(p);
    ShapeLeafLines(p);
    ShapeLinesAt(p);
    EightLines(p, ShapeLines(p));
  }

  lemma EightLines(p: seq<Entry>, ls: seq<string>)
    requires |p| == 8 && |ls| == 8
    requires LineOf(p, 0) == ls[0] && LineOf(p, 1) == ls[1] && LineOf(p, 2) == ls[2] && LineOf(p, 3) == ls[3]
    requires LineOf(p, 4) == ls[4] && LineOf(p, 5) == ls[5] && LineOf(p, 6) == ls[6] && LineOf(p, 7) == ls[7]
    ensures NumberedLines(p) == ls
  {
    forall i | 0 <= i < 8 ensures ls[i] == LineOf(p, i) {
      if i < 4 {
        assert i == 0 || i == 1 || i == 2 || i == 3;
      } else {
        assert i == 4 || i == 5 || i == 6 || i == 7;
      }
    }
    LinesComplete(p, ls);
  }

  lemma MixedSubtype()
    ensures UpperSubtype(Mixed)
  {
    assert Subtypes[0] == Mixed;
  }

  lemma RelatedSubtype()
    ensures UpperSubtype(Related)
  {
    assert Subtypes[4] == Related;
    MemberMeaning(Related, Subtypes);
  }

  lemma AlternativeSubtype()
    ensures UpperSubtype(Alternative)
  {
    assert Subtypes[3] == Alternative;
    MemberMeaning(Alternative, Subtypes);
  }

  /** add_part_nums renders the sample's entries as bodystructure.py
      documents them. */
  lemma SampleListing()
    ensures NumberedLines(SampleParts) == SampleLines
  {
    var p := SampleParts;
    assert p[0].text == Mixed && p[1].text == Related && p[2].text == Alternative;
    assert forall k :: 3 <= k < 8 ==> p[k].text != [] && p[k].text[0] == '"';
    MixedSubtype();
    RelatedSubtype();
    AlternativeSubtype();
    ShapeListing(p);
  }

  // ---------------------------------------------------------------------
  // The merge of the sample's groups

  /** A text that starts with neither whitespace nor a double quote (a
      container's text, the BODY item) does not match CONTENT_TYPE_RE. */
  lemma UnquotedNotLeaf(t: string)
    requires t != [] && !IsSpace(t[0]) && t[0] != '"'
    ensures !IsContentType(t)
  {
    assert SkipSpaces(t, 0) == 0;
  }

  /** A quoted word whose first letter starts no content type (a parameter
      name such as "charset" or "name") does not match CONTENT_TYPE_RE. */
  lemma ParameterNotLeaf(word: string, rest: string)
    requires word != []
    requires forall k :: k in ContentTypes ==> k != [] && k[0] != UpperChar(word[0])
    ensures !IsContentType(Quoted(word, rest))
  {
    var t := Quoted(word, rest);
    assert SkipSpaces(t, 0) == 0;
    forall k | k in ContentTypes
      ensures !KeywordAt(t, 1, k)
    {
      if 1 + |k| < |t| {
        assert Upper(t[1..1 + |k|])[0] == UpperChar(t[1]);
      }
    }
    AlternativesNone(t, 1, ContentTypes);
  }

  /** A text opening with a quoted content type in upper case is a leaf. */
  lemma QuotedTypeLeaf(word: string, rest: string)
    requires Upper(word) in ContentTypes
    ensures IsContentType(Quoted(word, rest))
  {
    var t := Quoted(word, rest);
    ContentTypeMeaning(t);
    assert KeywordMatch(t, ContentTypes, 0, |word|);
  }

  /** No content type starts with the upper-cased first letter of "charset"
      or "name". */
  lemma ParameterLetters()
    ensures forall k :: k in ContentTypes ==> k != [] && k[0] != 'C' && k[0] != 'N'
  {
  }

  /** The parameter lists of the sample are not leaves. */
  lemma SampleParameters()
    ensures !IsContentType(Charset) && !IsContentType(Name1) && !IsContentType(Name2) && !IsContentType(Name3)
  {
    ParameterLetters();
    ParameterNotLeaf("charset", " \"US-ASCII\"");
    ParameterNotLeaf("name", " \"pic00041.gif\"");
    ParameterNotLeaf("name", " \"ecblank.gif\"");
    ParameterNotLeaf("name", " \"Quote_VLQ5069.pdf\"");
  }

  /** The containers and the BODY item of the sample are not leaves. */
  lemma SampleContainers()
    ensures !IsContentType(AltText) && !IsContentType(RelText) && !IsContentType(MixText) && !IsContentType(BodyText)
  {
    UnquotedNotLeaf(AltText);
    UnquotedNotLeaf(RelText);
    UnquotedNotLeaf(MixText);
    UnquotedNotLeaf(BodyText);
  }

  /** The body parts of the sample are leaves. */
  lemma SampleBodyParts()
    ensures IsContentType(TextPlain) && IsContentType(TextHtml)
    ensures IsContentType(Image1) && IsContentType(Image2) && IsContentType(Pdf)
  {
    UpperKeeps("TEXT");
    UpperKeeps("IMAGE");
    UpperKeeps("APPLICATION");
    QuotedTypeLeaf("TEXT", TextPlain[6..]);
    QuotedTypeLeaf("TEXT", TextHtml[6..]);
    QuotedTypeLeaf("IMAGE", Image1[7..]);
    QuotedTypeLeaf("IMAGE", Image2[7..]);
    QuotedTypeLeaf("APPLICATION", Pdf[13..]);
  }

  /** The markers and leaves of five groups, group by group, in yield order. */
  lemma FiveGroups(g0: RawGroup, g1: RawGroup, g2: RawGroup, g3: RawGroup, g4: RawGroup)
    ensures Markers([g0, g1, g2, g3, g4]) == MarkerOf(g0) + MarkerOf(g1) + MarkerOf(g2) + MarkerOf(g3) + MarkerOf(g4)
    ensures Leaves([g0, g1, g2, g3, g4]) == LeafOf(g0) + LeafOf(g1) + LeafOf(g2) + LeafOf(g3) + LeafOf(g4)
  {
    var gs := [g0, g1, g2, g3, g4];
    assert gs[..5][..4] == gs[..4] && gs[..4][..3] == gs[..3] && gs[..3][..2] == gs[..2] && gs[..2][..1] == gs[..1];
    assert Markers(gs) == Markers(gs[..4]) + MarkerOf(g4) && Leaves(gs) == Leaves(gs[..4]) + LeafOf(g4);
    assert Markers(gs[..4]) == Markers(gs[..3]) + MarkerOf(g3) && Leaves(gs[..4]) == Leaves(gs[..3]) + LeafOf(g3);
    assert Markers(gs[..3]) == Markers(gs[..2]) + MarkerOf(g2) && Leaves(gs[..3]) == Leaves(gs[..2]) + LeafOf(g2);
    assert Markers(gs[..2]) == Markers(gs[..1]) + MarkerOf(g1) && Leaves(gs[..2]) == Leaves(gs[..1]) + LeafOf(g1);
    assert Markers(gs[..1]) == MarkerOf(g0) && Leaves(gs[..1]) == LeafOf(g0);
  }

  /** The markers and leaves of four groups, group by group, in yield order. */
  lemma FourGroups(g0: RawGroup, g1: RawGroup, g2: RawGroup, g3: RawGroup)
    ensures Markers([g0, g1, g2, g3]) == MarkerOf(g0) + MarkerOf(g1) + MarkerOf(g2) + MarkerOf(g3)
    ensures Leaves([g0, g1, g2, g3]) == LeafOf(g0) + LeafOf(g1) + LeafOf(g2) + LeafOf(g3)
  {
    var gs := [g0, g1, g2, g3];
    assert gs[..4][..3] == gs[..3] && gs[..3][..2] == gs[..2] && gs[..2][..1] == gs[..1];
    assert Markers(gs) == Markers(gs[..3]) + MarkerOf(g3) && Leaves(gs) == Leaves(gs[..3]) + LeafOf(g3);
    assert Markers(gs[..3]) == Markers(gs[..2]) + MarkerOf(g2) && Leaves(gs[..3]) == Leaves(gs[..2]) + LeafOf(g2);
    assert Markers(gs[..2]) == Markers(gs[..1]) + MarkerOf(g1) && Leaves(gs[..2]) == Leaves(gs[..1]) + LeafOf(g1);
    assert Markers(gs[..1]) == MarkerOf(g0) && Leaves(gs[..1]) == LeafOf(g0);
  }

  /** The groups of a container of two leaves whose subtype follows the
      second one, as the ALTERNATIVE container of the sample: its marker
      one level up, then its two leaves. */
  lemma TwoLeafMerge(p1: string, t1: string, p2: string, t2: string, ct: string, sub: string, d: nat)
    requires !IsContentType(p1) && !IsContentType(p2) && !IsContentType(ct)
    requires IsContentType(t1) && IsContentType(t2) && sub != [] && d >= 1
    ensures Markers(TwoLeafGroups(p1, t1, p2, t2, ct, sub, d)) == [Entry(d - 1, sub)]
    ensures Leaves(TwoLeafGroups(p1, t1, p2, t2, ct, sub, d)) == [Entry(d, t1), Entry(d, t2)]
  {
    FiveGroups(RawGroup("", d + 1, p1), RawGroup("", d, t1), RawGroup("", d + 1, p2),
      RawGroup(sub, d, t2), RawGroup("", d - 1, ct));
  }

  /** The last leaf of a container, followed by its subtype, then the
      container's own group and the group around it, as the end of the
      sample's MIXED container and the BODY item. */
  lemma LastLeafMerge(p: string, t: string, ct: string, outer: string, sub: string, d: nat)
    requires !IsContentType(p) && !IsContentType(ct) && !IsContentType(outer)
    requires IsContentType(t) && sub != [] && d >= 2
    ensures Markers(LastLeafGroups(p, t, ct, outer, sub, d)) == [Entry(d - 1, sub)]
    ensures Leaves(LastLeafGroups(p, t, ct, outer, sub, d)) == [Entry(d, t)]
  {
    FourGroups(RawGroup("", d + 1, p), RawGroup(sub, d, t), RawGroup("", d - 1, ct), RawGroup("", d - 2, outer));
  }

  /** The markers of a two-leaf container at depth 4, a two-leaf container
      at depth 3 and a last leaf at depth 2, closed in that order... */
  lemma ThreeContainersMarkers(p1: string, t1: string, p2: string, t2: string, ct: string, sub: string,
                             q1: string, u1: string, q2: string, u2: string, rt: string, rsub: string,
                             r: string, v: string, mt: string, outer: string, msub: string)
    requires !IsContentType(p1) && !IsContentType(p2) && !IsContentType(ct)
    requires IsContentType(t1) && IsContentType(t2) && sub != []
    requires !IsContentType(q1) && !IsContentType(q2) && !IsContentType(rt)
    requires IsContentType(u1) && IsContentType(u2) && rsub != []
    requires !IsContentType(r) && !IsContentType(mt) && !IsContentType(outer)
    requires IsContentType(v) && msub != []
    ensures Markers(TwoLeafGroups(p1, t1, p2, t2, ct, sub, 4) + TwoLeafGroups(q1, u1, q2, u2, rt, rsub, 3)
      + LastLeafGroups(r, v, mt, outer, msub, 2)) == [Entry(3, sub), Entry(2, rsub), Entry(1, msub)]
  {
    TwoLeafMerge(p1, t1, p2, t2, ct, sub, 4);
    TwoLeafMerge(q1, u1, q2, u2, rt, rsub, 3);
    LastLeafMerge(r, v, mt, outer, msub, 2);
    ThreeRuns(TwoLeafGroups(p1, t1, p2, t2, ct, sub, 4), TwoLeafGroups(q1, u1, q2, u2, rt, rsub, 3),
      LastLeafGroups(r, v, mt, outer, msub, 2));
  }

  /** ...and their leaves. */
  lemma ThreeContainersLeaves(p1: string, t1: string, p2: string, t2: string, ct: string, sub: string,
                             q1: string, u1: string, q2: string, u2: string, rt: string, rsub: string,
                             r: string, v: string, mt: string, outer: string, msub: string)
    requires !IsContentType(p1) && !IsContentType(p2) && !IsContentType(ct)
    requires IsContentType(t1) && IsContentType(t2) && sub != []
    requires !IsContentType(q1) && !IsContentType(q2) && !IsContentType(rt)
    requires IsContentType(u1) && IsContentType(u2) && rsub != []
    requires !IsContentType(r) && !IsContentType(mt) && !IsContentType(outer)
    requires IsContentType(v) && msub != []
    ensures Leaves(TwoLeafGroups(p1, t1, p2, t2, ct, sub, 4) + TwoLeafGroups(q1, u1, q2, u2, rt, rsub, 3)
      + LastLeafGroups(r, v, mt, outer, msub, 2)) == [Entry(4, t1), Entry(4, t2), Entry(3, u1), Entry(3, u2), Entry(2, v)]
  {
    TwoLeafMerge(p1, t1, p2, t2, ct, sub, 4);
    TwoLeafMerge(q1, u1, q2, u2, rt, rsub, 3);
    LastLeafMerge(r, v, mt, outer, msub, 2);
    ThreeRuns(TwoLeafGroups(p1, t1, p2, t2, ct, sub, 4), TwoLeafGroups(q1, u1, q2, u2, rt, rsub, 3),
      LastLeafGroups(r, v, mt, outer, msub, 2));
  }

  /** Their merge: the three markers, outermost first, then the five leaves
      in yield order. */
  lemma ThreeContainersMerge(p1: string, t1: string, p2: string, t2: string, ct: string, sub: string,
                             q1: string, u1: string, q2: string, u2: string, rt: string, rsub: string,
                             r: string, v: string, mt: string, outer: string, msub: string)
    requires !IsContentType(p1) && !IsContentType(p2) && !IsContentType(ct)
    requires IsContentType(t1) && IsContentType(t2) && sub != []
    requires !IsContentType(q1) && !IsContentType(q2) && !IsContentType(rt)
    requires IsContentType(u1) && IsContentType(u2) && rsub != []
    requires !IsContentType(r) && !IsContentType(mt) && !IsContentType(outer)
    requires IsContentType(v) && msub != []
    ensures Merged(TwoLeafGroups(p1, t1, p2, t2, ct, sub, 4) + TwoLeafGroups(q1, u1, q2, u2, rt, rsub, 3)
      + LastLeafGroups(r, v, mt, outer, msub, 2))
      == [Entry(1, msub), Entry(2, rsub), Entry(3, sub), Entry(4, t1), Entry(4, t2), Entry(3, u1), Entry(3, u2), Entry(2, v)]
  {
    ThreeContainersMarkers(p1, t1, p2, t2, ct, sub, q1, u1, q2, u2, rt, rsub, r, v, mt, outer, msub);
    ThreeContainersLeaves(p1, t1, p2, t2, ct, sub, q1, u1, q2, u2, rt, rsub, r, v, mt, outer, msub);
    ReversedThree(Entry(3, sub), Entry(2, rsub), Entry(1, msub));
  }

  /** parse_bodystructure's merge of the sample's groups gives the sample's
      entries: the three markers at the front, outermost first, then the
      five leaves in yield order. */
  lemma SampleMerge()
    ensures Merged(SampleGroups) == SampleParts
  {
    SampleParameters();
    SampleContainers();
    SampleBodyParts();
    ThreeContainersMerge(Charset, TextPlain, Charset, TextHtml, AltText, Alternative,
      Name1, Image1, Name2, Image2, RelText, Related, Name3, Pdf, MixText, BodyText, Mixed);
  }

  /** From the sample's groups to the documented listing: the merge and
      add_part_nums together. */
  lemma SampleGroupsListing()
    ensures Merged(SampleGroups) != []
    ensures NumberedLines(Merged(SampleGroups)) == SampleLines
  {
    SampleMerge();
    SampleListing();
  }
}
