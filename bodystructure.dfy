/** The IMAP BODYSTRUCTURE part-number lister of bodystructure.py.

    A FETCH BODY / BODYSTRUCTURE response (the body structure grammar of
    section 7.4.2 of RFC 3501) goes through three stages:
      1. the scanner (parse_parts) yields one group per ")" with its depth,
         its text and the multipart subtype that directly follows it;
      2. the merge (parse_bodystructure) keeps the leaf groups and splices in
         one container marker per subtype;
      3. the numbering (add_part_nums) gives each entry a dotted part number
         (the part specifiers of section 6.4.5 of RFC 3501) from one counter
         per absolute depth, and renders one indented line per entry. */
module BodyStructure {
  import opened Results
  import opened Text
  import opened BodyPatterns

  /** One closed group as parse_parts yields it: the multipart subtype
      quoted right after its ")" ('' if none), the number of groups still
      open after it closes, and the text strictly between its parentheses. */
  datatype RawGroup = RawGroup(subtype: string, depth: nat, text: string)

  /** A `(depth, text)` tuple of the merged list; a container marker is
      `(depth - 1, subtype)` and can have depth -1. */
  datatype Entry = Entry(depth: int, text: string)

  // =====================================================================
  // Stage 1: the parenthesis scanner

  function Delta(c: char): int {
    if c == '(' then 1 else if c == ')' then -1 else 0
  }

  /** Opening minus closing parentheses among the first `j` characters. */
  function Level(s: string, j: nat): int
    requires j <= |s|
  {
    if j == 0 then 0 else Level(s, j - 1) + Delta(s[j - 1])
  }

  /** Number of ")" among the first `j` characters. */
  function Closes(s: string, j: nat): nat
    requires j <= |s|
  {
    if j == 0 then 0 else Closes(s, j - 1) + (if s[j - 1] == ')' then 1 else 0)
  }

  /** The "(" at `m` is the one the ")" at `p` closes: the text between
      them never drops below the level just inside `m` and ends on it. */
  predicate Matches(s: string, m: int, p: int) {
    0 <= m < p < |s| && s[m] == '(' && s[p] == ')'
    && Level(s, p) == Level(s, m + 1)
    && forall j :: m + 1 <= j <= p ==> Level(s, j) >= Level(s, m + 1)
  }

  /** `g` is the group the scanner must yield for the ")" at `p`. */
  ghost predicate GroupAt(s: string, p: int, g: RawGroup)
    requires 0 <= p < |s|
  {
    exists m :: Matches(s, m, p)
      && g.subtype == MultipartSubtype(s[p + 1..])
      && g.depth == Level(s, p + 1)
      && g.text == s[m + 1..p]
  }

  /** The scanner's state: the stack of offsets of still-open "(" and the
      groups yielded so far. */
  datatype ScanState = ScanState(open: seq<nat>, groups: seq<RawGroup>)

  /** One iteration of the scanning loop on the character at `k`; `None`
      when a ")" finds the stack empty (list.pop raises IndexError). */
  function Step(s: string, k: nat, st: ScanState): Option<ScanState>
    requires k < |s|
    requires forall i :: 0 <= i < |st.open| ==> st.open[i] < k
  {
    if s[k] == '(' then Some(ScanState(st.open + [k], st.groups))
    else if s[k] == ')' then
      if st.open == [] then None
      else
        var start := st.open[|st.open| - 1];
        var open := st.open[..|st.open| - 1];
        Some(ScanState(open, st.groups + [RawGroup(MultipartSubtype(s[k + 1..]), |open|, s[start + 1..k])]))
    else Some(st)
  }

  /** The scanner's state after the first `k` characters. */
  function ScanPrefix(s: string, k: nat): (r: Option<ScanState>)
    requires k <= |s|
    ensures r.Some? ==> forall i :: 0 <= i < |r.value.open| ==> r.value.open[i] < k
  {
    if k == 0 then Some(ScanState([], []))
    else
      match ScanPrefix(s, k - 1)
      case None => None
      case Some(st) => Step(s, k - 1, st)
  }

  /** What parse_parts produces when it is run to the end. */
  function Scan(s: string): Result<seq<RawGroup>> {
    match ScanPrefix(s, |s|)
    case None => Err(IndexError)
    case Some(st) => Ok(st.groups)
  }

  /** parse_parts: one pass over the characters with a stack of "(" offsets. */
  method ParseParts(s: string) returns (r: Result<seq<RawGroup>>)
    ensures r == Scan(s)
  {
    var openParenPos: seq<nat> := [];
    var groups: seq<RawGroup> := [];
    for chPos := 0 to |s|
      invariant ScanPrefix(s, chPos) == Some(ScanState(openParenPos, groups))
    {
      assert ScanPrefix(s, chPos + 1) == Step(s, chPos, ScanState(openParenPos, groups));
      if s[chPos] == '(' {
        openParenPos := openParenPos + [chPos];
      } else if s[chPos] == ')' {
        if openParenPos == [] {
          FailurePersists(s, chPos + 1, |s|);
          return Err(IndexError);
        }
        var startPos := openParenPos[|openParenPos| - 1];
        openParenPos := openParenPos[..|openParenPos| - 1];
        var text := s[startPos + 1..chPos];
        var depth := |openParenPos|;
        var subtype := MultipartSubtype(s[chPos + 1..]);
        groups := groups + [RawGroup(subtype, depth, text)];
      }
    }
    return Ok(groups);
  }

  lemma {:induction false} FailurePersists(s: string, k: nat, k': nat)
    requires k <= k' <= |s|
    requires ScanPrefix(s, k).None?
    ensures ScanPrefix(s, k').None?
    decreases k' - k
  {
    if k < k' {
      FailurePersists(s, k + 1, k');
    }
  }

  /** The scanner's invariant after `k` characters: the stack holds, from
      the bottom, the "(" that raised the level from 0, 1, 2, ... and that
      the text has not closed since; one group per ")" read so far, each
      the group of its ")". */
  ghost predicate ScanInv(s: string, k: nat, st: ScanState)
    requires k <= |s|
  {
    StackInv(s, k, st.open) && GroupsInv(s, k, st.groups)
  }

  /** The stack half of the scanner's invariant. */
  predicate StackInv(s: string, k: nat, open: seq<nat>)
    requires k <= |s|
  {
    |open| == Level(s, k)
    && (forall i :: 0 <= i < |open| ==> open[i] < k && s[open[i]] == '(' && Level(s, open[i]) == i)
    && (forall i, j :: 0 <= i < |open| && open[i] < j <= k ==> Level(s, j) >= i + 1)
  }

  /** The groups half of the scanner's invariant. */
  ghost predicate GroupsInv(s: string, k: nat, groups: seq<RawGroup>)
    requires k <= |s|
  {
    |groups| == Closes(s, k)
    && (forall p :: 0 <= p < k && s[p] == ')' ==> Closes(s, p) < |groups| && GroupAt(s, p, groups[Closes(s, p)]))
  }

  lemma StepKeepsInv(s: string, k: nat, st: ScanState)
    requires k < |s|
    requires ScanInv(s, k, st)
    ensures Step(s, k, st).Some? <==> Level(s, k + 1) >= 0
    ensures Step(s, k, st).Some? ==> ScanInv(s, k + 1, Step(s, k, st).value)
  {
    if s[k] == '(' {
      OpenKeepsStack(s, k, st.open);
      OtherKeepsGroups(s, k, st.groups);
    } else if s[k] == ')' {
      if st.open != [] {
        CloseKeepsInv(s, k, st);
      }
    } else {
      OtherKeepsStack(s, k, st.open);
      OtherKeepsGroups(s, k, st.groups);
    }
  }

  lemma OpenKeepsStack(s: string, k: nat, open: seq<nat>)
    requires k < |s| && s[k] == '('
    requires StackInv(s, k, open)
    ensures StackInv(s, k + 1, open + [k])
  {
    var open' := open + [k];
    assert Level(s, k + 1) == Level(s, k) + 1;
    assert forall i :: 0 <= i < |open| ==> open'[i] == open[i];
  }

  lemma OtherKeepsStack(s: string, k: nat, open: seq<nat>)
    requires k < |s| && s[k] != '(' && s[k] != ')'
    requires StackInv(s, k, open)
    ensures StackInv(s, k + 1, open)
  {
    assert Level(s, k + 1) == Level(s, k);
  }

  lemma OtherKeepsGroups(s: string, k: nat, groups: seq<RawGroup>)
    requires k < |s| && s[k] != ')'
    requires GroupsInv(s, k, groups)
    ensures GroupsInv(s, k + 1, groups)
  {
    assert Closes(s, k + 1) == Closes(s, k);
  }

  lemma CloseKeepsInv(s: string, k: nat, st: ScanState)
    requires k < |s| && s[k] == ')' && st.open != []
    requires ScanInv(s, k, st)
    ensures Level(s, k + 1) >= 0
    ensures Step(s, k, st).Some? && ScanInv(s, k + 1, Step(s, k, st).value)
  {
    var n := |st.open|;
    var m := st.open[n - 1];
    var g := RawGroup(MultipartSubtype(s[k + 1..]), n - 1, s[m + 1..k]);
    assert Step(s, k, st) == Some(ScanState(st.open[..n - 1], st.groups + [g]));
    CloseKeepsStack(s, k, st.open);
    CloseMatches(s, k, st.open);
    assert GroupAt(s, k, g);
    CloseKeepsGroups(s, k, st.groups, g);
  }

  lemma CloseKeepsStack(s: string, k: nat, open: seq<nat>)
    requires k < |s| && s[k] == ')' && open != []
    requires StackInv(s, k, open)
    ensures Level(s, k + 1) == |open| - 1
    ensures StackInv(s, k + 1, open[..|open| - 1])
  {
    assert Level(s, k + 1) == |open| - 1;
  }

  /** The top of the stack is the "(" a ")" closes. */
  lemma CloseMatches(s: string, k: nat, open: seq<nat>)
    requires k < |s| && s[k] == ')' && open != []
    requires StackInv(s, k, open)
    ensures Matches(s, open[|open| - 1], k)
  {
    var m := open[|open| - 1];
    assert Level(s, m + 1) == |open|;
  }

  lemma CloseKeepsGroups(s: string, k: nat, groups: seq<RawGroup>, g: RawGroup)
    requires k < |s| && s[k] == ')'
    requires GroupsInv(s, k, groups) && GroupAt(s, k, g)
    ensures GroupsInv(s, k + 1, groups + [g])
  {
    var groups' := groups + [g];
    assert Closes(s, k + 1) == Closes(s, k) + 1;
    assert forall p :: 0 <= p < k && s[p] == ')' ==> groups'[Closes(s, p)] == groups[Closes(s, p)];
  }

  /** What the scanner computes, stated without the loop: it fails exactly
      when some prefix has more ")" than "("; otherwise it holds one group
      per ")", in closing order, and each is that ")"'s group. */
  lemma {:induction false} ScanPrefixCorrect(s: string, k: nat)
    requires k <= |s|
    ensures ScanPrefix(s, k).Some? <==> forall j :: 0 <= j <= k ==> Level(s, j) >= 0
    ensures ScanPrefix(s, k).Some? ==> ScanInv(s, k, ScanPrefix(s, k).value)
  {
    if k > 0 {
      ScanPrefixCorrect(s, k - 1);
      if ScanPrefix(s, k - 1).Some? {
        StepKeepsInv(s, k - 1, ScanPrefix(s, k - 1).value);
      }
    }
  }

  /** parse_parts' contract: it raises exactly when a ")" has no unmatched
      "(" before it; otherwise it yields one group per ")", in the order the
      groups close, whose text lies strictly between that ")" and its
      matching "(" and whose depth counts the "(" still unmatched after it.
      A "(" left open at the end yields nothing. */
  lemma ScanCorrect(s: string)
    ensures Scan(s).Ok? <==> forall j :: 0 <= j <= |s| ==> Level(s, j) >= 0
    ensures Scan(s).Ok? ==> |Scan(s).value| == Closes(s, |s|)
    ensures Scan(s).Ok? ==> forall p :: 0 <= p < |s| && s[p] == ')' ==>
              Closes(s, p) < |Scan(s).value| && GroupAt(s, p, Scan(s).value[Closes(s, p)])
  {
    ScanPrefixCorrect(s, |s|);
  }

  /** A ")" has exactly one matching "(", so GroupAt pins the text down. */
  lemma MatchUnique(s: string, m1: int, m2: int, p: int)
    requires Matches(s, m1, p) && Matches(s, m2, p)
    ensures m1 == m2
  {
    InnerOpenRaises(s, m1, m2, p);
    InnerOpenRaises(s, m2, m1, p);
  }

  lemma InnerOpenRaises(s: string, m: int, m': int, p: int)
    requires Matches(s, m, p) && 0 <= m' < p && s[m'] == '('
    ensures m < m' ==> Level(s, m' + 1) > Level(s, m + 1)
  {
  }

  // =====================================================================
  // Stage 2: merging the groups into one list of entries

  /** The container marker `(depth - 1, subtype)` a group contributes. */
  function MarkerOf(g: RawGroup): seq<Entry> {
    if g.subtype != [] then [Entry(g.depth - 1, g.subtype)] else []
  }

  /** The leaf `(depth, text)` a group contributes. */
  function LeafOf(g: RawGroup): seq<Entry> {
    if IsContentType(g.text) then [Entry(g.depth, g.text)] else []
  }

  /** The container markers, in yield order. */
  function Markers(gs: seq<RawGroup>): seq<Entry> {
    if gs == [] then []
    else
      Markers(gs[..|gs| - 1]) + MarkerOf(gs[|gs| - 1])
  }

  /** The leaves `(depth, text)`: groups whose text starts with a quoted
      content type, in yield order. */
  function Leaves(gs: seq<RawGroup>): seq<Entry> {
    if gs == [] then []
    else
      Leaves(gs[..|gs| - 1]) + LeafOf(gs[|gs| - 1])
  }

  function Reversed<T>(s: seq<T>): (r: seq<T>)
    ensures |r| == |s|
    ensures forall i :: 0 <= i < |s| ==> r[i] == s[|s| - 1 - i]
  {
    if s == [] then [] else [s[|s| - 1]] + Reversed(s[..|s| - 1])
  }

  /** The merged list: every marker went to the front, so the markers
      stand in reverse yield order ahead of all leaves in yield order. */
  function Merged(gs: seq<RawGroup>): seq<Entry> {
    Reversed(Markers(gs)) + Leaves(gs)
  }

  /** Every marker comes from a group with a subtype: `(depth - 1,
      subtype)`. */
  lemma {:induction false} MarkersMembers(gs: seq<RawGroup>)
    ensures forall e :: e in Markers(gs) <==>
      exists i :: 0 <= i < |gs| && gs[i].subtype != [] && e == Entry(gs[i].depth - 1, gs[i].subtype)
  {
    if gs != [] {
      var front := gs[..|gs| - 1];
      MarkersMembers(front);
      assert forall i :: 0 <= i < |front| ==> front[i] == gs[i];
    }
  }

  /** Every leaf comes from a group whose text starts with a quoted
      content type: `(depth, text)`. */
  lemma {:induction false} LeavesMembers(gs: seq<RawGroup>)
    ensures forall e :: e in Leaves(gs) <==>
      exists i :: 0 <= i < |gs| && IsContentType(gs[i].text) && e == Entry(gs[i].depth, gs[i].text)
  {
    if gs != [] {
      var front := gs[..|gs| - 1];
      LeavesMembers(front);
      assert forall i :: 0 <= i < |front| ==> front[i] == gs[i];
    }
  }

  /** The merged list holds one marker per group with a subtype and one
      leaf per group with a content type, and nothing else. */
  lemma MergedMembers(gs: seq<RawGroup>)
    ensures forall e :: e in Merged(gs) <==>
      exists i :: 0 <= i < |gs| &&
        ((gs[i].subtype != [] && e == Entry(gs[i].depth - 1, gs[i].subtype))
         || (IsContentType(gs[i].text) && e == Entry(gs[i].depth, gs[i].text)))
  {
    MarkersMembers(gs);
    LeavesMembers(gs);
    var ms := Markers(gs);
    assert forall e :: e in Reversed(ms) <==> e in ms by {
      forall e ensures e in Reversed(ms) <==> e in ms {
        if e in ms {
          var i :| 0 <= i < |ms| && ms[i] == e;
          assert Reversed(ms)[|ms| - 1 - i] == e;
        }
      }
    }
  }

  /** The loop test `depth < parts[i]` compares an int with a
      `(depth, text)` tuple. Python 2 orders every number before every
      value of another type, so the test is true whatever the entry. */
  function IntLessThanTuple(n: int, t: Entry): bool {
    true
  }

  /** The body of the merge loop for one group. The backward search for
      the marker's insertion point never stops early, so the marker is
      inserted at index 0 and the entries already there keep their order;
      a leaf goes to the end. */
  method MergeGroup(parts: seq<Entry>, g: RawGroup) returns (r: seq<Entry>)
    ensures r == MarkerOf(g) + parts + LeafOf(g)
  {
    r := parts;
    if g.subtype != [] {
      var i := |r| - 1;
      while i >= 0 && IntLessThanTuple(g.depth, r[i])
        invariant -1 <= i < |r|
      {
        i := i - 1;
      }
      assert i == -1 && r[..i + 1] == [] && r[i + 1..] == r;
      r := r[..i + 1] + [Entry(g.depth - 1, g.subtype)] + r[i + 1..];
    }
    if IsContentType(g.text) {
      r := r + [Entry(g.depth, g.text)];
    }
  }

  /** The merge loop of parse_bodystructure, over the groups in yield order. */
  method MergeParts(groups: seq<RawGroup>) returns (parts: seq<Entry>)
    ensures parts == Reversed(Markers(groups)) + Leaves(groups)
  {
    parts := [];
    assert groups[..0] == [];
    for n := 0 to |groups|
      invariant parts == Reversed(Markers(groups[..n])) + Leaves(groups[..n])
    {
      ghost var front, back := Reversed(Markers(groups[..n])), Leaves(groups[..n]);
      parts := MergeGroup(parts, groups[n]);
      MergedPrefix(groups, n);
      Regroup(MarkerOf(groups[n]), front, back, LeafOf(groups[n]));
    }
    assert groups[..|groups|] == groups;
  }

  lemma Regroup<T>(a: seq<T>, b: seq<T>, c: seq<T>, d: seq<T>)
    ensures a + (b + c) + d == (a + b) + (c + d)
  {
  }

  lemma MergedPrefix(gs: seq<RawGroup>, n: nat)
    requires n < |gs|
    ensures Reversed(Markers(gs[..n + 1])) == MarkerOf(gs[n]) + Reversed(Markers(gs[..n]))
    ensures Leaves(gs[..n + 1]) == Leaves(gs[..n]) + LeafOf(gs[n])
  {
    assert gs[..n + 1] == gs[..n] + [gs[n]];
    MergedStep(gs[..n], gs[n]);
  }

  /** Markers and leaves of consecutive runs of groups concatenate. */
  lemma {:induction false} MarkersLeavesConcat(a: seq<RawGroup>, b: seq<RawGroup>)
    ensures Markers(a + b) == Markers(a) + Markers(b)
    ensures Leaves(a + b) == Leaves(a) + Leaves(b)
    decreases |b|
  {
    if b == [] {
      assert a + b == a;
    } else {
      var b' := b[..|b| - 1];
      assert (a + b)[..|a + b| - 1] == a + b';
      assert (a + b)[|a + b| - 1] == b[|b| - 1];
      MarkersLeavesConcat(a, b');
    }
  }

  /** Markers and leaves of three consecutive runs of groups. */
  lemma ThreeRuns(a: seq<RawGroup>, b: seq<RawGroup>, c: seq<RawGroup>)
    ensures Markers(a + b + c) == Markers(a) + Markers(b) + Markers(c)
    ensures Leaves(a + b + c) == Leaves(a) + Leaves(b) + Leaves(c)
  {
    MarkersLeavesConcat(a, b);
    MarkersLeavesConcat(a + b, c);
  }

  /** A three-element list reversed. */
  lemma ReversedThree<T>(x: T, y: T, z: T)
    ensures Reversed([x, y, z]) == [z, y, x]
  {
    var r := Reversed([x, y, z]);
    assert r[0] == z && r[1] == y && r[2] == x;
  }

  /** How one more group changes the merged list: its marker, if any, in
      front, and its leaf, if any, at the back. */
  lemma MergedStep(gs: seq<RawGroup>, g: RawGroup)
    ensures Reversed(Markers(gs + [g])) == MarkerOf(g) + Reversed(Markers(gs))
    ensures Leaves(gs + [g]) == Leaves(gs) + LeafOf(g)
  {
    assert (gs + [g])[..|gs|] == gs;
    var ms := Markers(gs);
    if g.subtype != [] {
      assert (ms + [Entry(g.depth - 1, g.subtype)])[..|ms|] == ms;
    } else {
      assert ms + [] == ms;
    }
  }

  // =====================================================================
  // Stage 3: numbering and rendering

  /** Number of entries at depth `d` in `parts`. */
  function CountDepth(parts: seq<Entry>, d: int): nat {
    if parts == [] then 0
    else CountDepth(parts[..|parts| - 1], d) + (if parts[|parts| - 1].depth == d then 1 else 0)
  }

  /** `max(parts)[0]`: tuples compare by depth first, so this is the
      largest depth. */
  function MaxDepth(parts: seq<Entry>): (m: int)
    requires parts != []
    ensures forall i :: 0 <= i < |parts| ==> parts[i].depth <= m
    ensures exists i :: 0 <= i < |parts| && parts[i].depth == m
  {
    if |parts| == 1 then parts[0].depth
    else
      var m := MaxDepth(parts[..|parts| - 1]);
      var last := parts[|parts| - 1].depth;
      assert forall i :: 0 <= i < |parts| - 1 ==> parts[i] == parts[..|parts| - 1][i];
      if last > m then last else m
  }

  /** The part number of entry `k`: for an entry at depth `d > 1`, the
      counters of depths 2..d once entry `k` is counted, each counter being
      the number of entries at its depth so far (counters are never reset,
      and markers count too); empty for `d <= 1`. */
  function PartNumber(parts: seq<Entry>, k: nat): seq<nat>
    requires k < |parts|
  {
    var d := parts[k].depth;
    if d <= 1 then [] else seq(d - 1, j => CountDepth(parts[..k + 1], j + 2))
  }

  /** `'.'.join([str(i) for i in nums])`. */
  function DottedNumber(nums: seq<nat>): string {
    Join(seq(|nums|, i requires 0 <= i < |nums| => DecimalString(nums[i])), ".")
  }

  /** A marker's text names a subtype and is shown as MULTIPART/<SUBTYPE>. */
  function Label(text: string): string {
    if Member(Upper(text), Subtypes) then "MULTIPART/" + Upper(text) else text
  }

  /** get_part_str: `depth - 1` tabs, the number, a space only after a
      non-empty number, the caption. */
  function RenderLine(depth: int, number: string, caption: string): string {
    Repeat('\t', depth - 1) + number + (if number != [] then " " else "") + caption
  }

  /** The line rendered for entry `k`. */
  function LineOf(parts: seq<Entry>, k: nat): string
    requires k < |parts|
  {
    RenderLine(parts[k].depth, DottedNumber(PartNumber(parts, k)), Label(parts[k].text))
  }

  /** The listing add_part_nums renders: one line per entry, in order. */
  function NumberedLines(parts: seq<Entry>): seq<string> {
    seq(|parts|, k requires 0 <= k < |parts| => LineOf(parts, k))
  }

  lemma CountDepthStep(parts: seq<Entry>, k: nat, d: int)
    requires k < |parts|
    ensures CountDepth(parts[..k + 1], d) == CountDepth(parts[..k], d) + (if parts[k].depth == d then 1 else 0)
  {
    assert parts[..k + 1][..k] == parts[..k];
  }

  /** Counting entry `k` bumps exactly the counter of its depth, and the
      counters of depths 2..depth are then its part number. */
  lemma CountersStep(parts: seq<Entry>, k: nat, nums: seq<nat>)
    requires k < |parts|
    requires parts[k].depth > 1 ==> parts[k].depth - 2 < |nums|
    requires forall j :: 0 <= j < |nums| ==> nums[j] == CountDepth(parts[..k], j + 2)
    ensures var d := parts[k].depth;
      var nums' := if d > 1 then nums[d - 2 := nums[d - 2] + 1] else nums;
      && (forall j :: 0 <= j < |nums'| ==> nums'[j] == CountDepth(parts[..k + 1], j + 2))
      && (d > 1 ==> nums'[..d - 1] == PartNumber(parts, k))
  {
    forall j | 0 <= j < |nums| ensures CountDepth(parts[..k + 1], j + 2) == nums[j] + (if parts[k].depth == j + 2 then 1 else 0) {
      CountDepthStep(parts, k, j + 2);
    }
  }

  /** Counting over a longer prefix never gives less. */
  lemma {:induction false} CountDepthGrows(parts: seq<Entry>, a: nat, b: nat, d: int)
    requires a <= b <= |parts|
    ensures CountDepth(parts[..a], d) <= CountDepth(parts[..b], d)
    decreases b - a
  {
    if a < b {
      CountDepthStep(parts, a, d);
      CountDepthGrows(parts, a + 1, b, d);
    }
  }

  /** An entry at depth `d > 1` has a part number of `d - 1` components
      whose last one, its own counter, is at least 1; entries at depth 0
      or 1 have none. */
  lemma PartNumberShape(parts: seq<Entry>, k: nat)
    requires k < |parts|
    ensures var d := parts[k].depth;
      |PartNumber(parts, k)| == (if d > 1 then d - 1 else 0)
      && (d > 1 ==> PartNumber(parts, k)[d - 2] >= 1)
  {
    CountDepthStep(parts, k, parts[k].depth);
  }

  /** Two entries at the same depth below the top, in list order, get
      strictly increasing last components: no two of them share a part
      number. */
  lemma SiblingNumbersIncrease(parts: seq<Entry>, i: nat, k: nat)
    requires i < k < |parts|
    requires parts[i].depth == parts[k].depth > 1
    ensures var d := parts[k].depth;
      PartNumber(parts, i)[d - 2] < PartNumber(parts, k)[d - 2]
    ensures PartNumber(parts, i) != PartNumber(parts, k)
  {
    var d := parts[k].depth;
    CountDepthGrows(parts, i + 1, k, d);
    CountDepthStep(parts, k, d);
    assert PartNumber(parts, i)[d - 2] == CountDepth(parts[..i + 1], d);
    assert PartNumber(parts, k)[d - 2] == CountDepth(parts[..k + 1], d);
  }

  /** The digit strings of a part number. */
  function NumberPieces(nums: seq<nat>): (r: seq<string>)
    ensures |r| == |nums|
    ensures forall i :: 0 <= i < |nums| ==> r[i] == DecimalString(nums[i])
  {
    seq(|nums|, i requires 0 <= i < |nums| => DecimalString(nums[i]))
  }

  /** Splitting a dotted part number at its dots gives back the decimal
      string of each component, so the components can be read back. */
  lemma DottedNumberRoundTrip(nums: seq<nat>)
    requires nums != []
    ensures var pieces := SplitOn(DottedNumber(nums), ".");
      |pieces| == |nums|
      && forall i :: 0 <= i < |nums| ==> AllDigits(pieces[i]) && DigitsValue(pieces[i]) == nums[i]
  {
    var pieces := NumberPieces(nums);
    assert DottedNumber(nums) == Join(pieces, ".");
    forall i | 0 <= i < |pieces| ensures '.' !in pieces[i] {
      assert AllDigits(pieces[i]);
    }
    SplitJoin(pieces);
    forall i | 0 <= i < |nums| ensures DigitsValue(pieces[i]) == nums[i] {
      DecimalStringValue(nums[i]);
    }
  }

  /** A dotted number is its first component, a dot, and the rest. */
  lemma DottedNumberCons(n: nat, rest: seq<nat>)
    ensures rest == [] ==> DottedNumber([n] + rest) == DecimalString(n)
    ensures rest != [] ==> DottedNumber([n] + rest) == DecimalString(n) + "." + DottedNumber(rest)
  {
    assert NumberPieces([n] + rest) == [DecimalString(n)] + NumberPieces(rest);
    assert DottedNumber([n] + rest) == Join(NumberPieces([n] + rest), ".");
    assert DottedNumber(rest) == Join(NumberPieces(rest), ".");
  }

  /** Distinct part numbers render as distinct dotted strings. */
  lemma DottedNumberInjective(a: seq<nat>, b: seq<nat>)
    requires a != [] && b != []
    requires DottedNumber(a) == DottedNumber(b)
    ensures a == b
  {
    DottedNumberRoundTrip(a);
    DottedNumberRoundTrip(b);
  }

  /** `s.split('.')` undoes `'.'.join(pieces)` when no piece holds a dot. */
  lemma {:induction false} SplitJoin(pieces: seq<string>)
    requires pieces != []
    requires forall i :: 0 <= i < |pieces| ==> '.' !in pieces[i]
    ensures SplitOn(Join(pieces, "."), ".") == pieces
  {
    var s := Join(pieces, ".");
    var p := pieces[0];
    if |pieces| == 1 {
      assert s == p;
      NoDotNoOccurrence(p, 0);
    } else {
      var rest := pieces[1..];
      assert s == p + "." + Join(rest, ".");
      NoDotNoOccurrence(s, |p|);
      assert OccursAt(s, ".", |p|);
      assert IndexOf(s, ".") == |p|;
      assert s[|p| + 1..] == Join(rest, ".");
      SplitJoin(rest);
      assert s[..|p|] == p;
    }
  }

  /** A text whose first `n` characters hold no dot. */
  lemma NoDotNoOccurrence(s: string, n: nat)
    requires n <= |s|
    requires '.' !in s[..n]
    ensures forall j :: 0 <= j < n ==> !OccursAt(s, ".", j)
    ensures n == |s| ==> forall j :: !OccursAt(s, ".", j)
  {
    forall j | 0 <= j < n ensures !OccursAt(s, ".", j) {
      assert s[j] == s[..n][j];
      assert s[j..j + 1][0] == s[j];
    }
  }

  /** A leaf is shown with its own text: a quoted content type holds a
      double quote, which no subtype name does. */
  lemma LeafKeepsText(text: string)
    requires IsContentType(text)
    ensures Label(text) == text
  {
    ContentTypeMeaning(text);
    var j, n :| KeywordMatch(text, ContentTypes, j, n);
    QuoteNotSubtype(Upper(text), j);
  }

  /** No subtype name holds a double quote. */
  lemma QuoteNotSubtype(u: string, j: nat)
    requires j < |u| && u[j] == '"'
    ensures !Member(u, Subtypes)
  {
    MemberMeaning(u, Subtypes);
    SubtypesUnquoted();
  }

  lemma SubtypesUnquoted()
    ensures forall i :: 0 <= i < |Subtypes| ==> '"' !in Subtypes[i]
  {
  }

  /** A container marker is shown as MULTIPART/ and its subtype in upper
      case. */
  lemma MarkerLabel(rest: string)
    requires MultipartSubtype(rest) != []
    ensures Label(MultipartSubtype(rest)) == "MULTIPART/" + Upper(MultipartSubtype(rest))
  {
    MultipartSubtypeMeaning(rest);
    MemberMeaning(Upper(MultipartSubtype(rest)), Subtypes);
  }

  /** A line is its entry's label alone for depth 0 or 1, and otherwise
      `depth - 1` tabs, the non-empty dotted number, one space and the
      label. */
  lemma LineShape(parts: seq<Entry>, k: nat)
    requires k < |parts|
    ensures parts[k].depth <= 1 ==> LineOf(parts, k) == Label(parts[k].text)
    ensures parts[k].depth > 1 ==>
      DottedNumber(PartNumber(parts, k)) != [] &&
      LineOf(parts, k) == Repeat('\t', parts[k].depth - 1) + DottedNumber(PartNumber(parts, k)) + " " + Label(parts[k].text)
  {
    PartNumberShape(parts, k);
    var nums := PartNumber(parts, k);
    if parts[k].depth > 1 {
      assert DottedNumber(nums) != [] by {
        DottedNumberRoundTrip(nums);
      }
    }
  }

  /** One iteration of add_part_nums: bump the counter of entry `k`'s
      depth and render its line. */
  method NumberEntry(parts: seq<Entry>, k: nat, partnums: array<nat>) returns (line: string)
    requires k < |parts|
    requires parts[k].depth > 1 ==> parts[k].depth - 2 < partnums.Length
    requires forall j :: 0 <= j < partnums.Length ==> partnums[j] == CountDepth(parts[..k], j + 2)
    modifies partnums
    ensures forall j :: 0 <= j < partnums.Length ==> partnums[j] == CountDepth(parts[..k + 1], j + 2)
    ensures line == LineOf(parts, k)
  {
    var depth := parts[k].depth;
    var text := parts[k].text;
    var partnum: string := [];
    ghost var before := partnums[..];
    CountersStep(parts, k, before);
    if depth > 1 {
      partnums[depth - 2] := partnums[depth - 2] + 1;
      assert partnums[..] == before[depth - 2 := before[depth - 2] + 1];
      assert partnums[..depth - 1] == partnums[..][..depth - 1];
      partnum := DottedNumber(partnums[..depth - 1]);
    }
    if Member(Upper(text), Subtypes) {
      text := "MULTIPART/" + Upper(text);
    }
    line := RenderLine(depth, partnum, text);
  }

  /** Appending the line of entry `k` to the lines of the entries before
      it gives the lines of the entries up to `k`. */
  lemma LinesExtend(parts: seq<Entry>, k: nat, lines: seq<string>, line: string)
    requires k < |parts| && |lines| == k
    requires forall i :: 0 <= i < k ==> lines[i] == LineOf(parts, i)
    requires line == LineOf(parts, k)
    ensures forall i :: 0 <= i <= k ==> (lines + [line])[i] == LineOf(parts, i)
  {
  }

  lemma LinesComplete(parts: seq<Entry>, lines: seq<string>)
    requires |lines| == |parts|
    requires forall i :: 0 <= i < |parts| ==> lines[i] == LineOf(parts, i)
    ensures lines == NumberedLines(parts)
  {
  }

  /** add_part_nums: a counter array sized to the largest depth, bumped at
      slot `depth - 2` for each entry deeper than 1. */
  method AddPartNums(parts: seq<Entry>) returns (r: Result<seq<string>>)
    ensures parts == [] ==> r == Err(ValueError)
    ensures parts != [] ==> r == Ok(NumberedLines(parts))
  {
    if parts == [] {
      return Err(ValueError);  // max() of an empty sequence
    }
    var top := MaxDepth(parts);
    var partnums := new nat[if top > 0 then top else 0](_ => 0);
    var result: seq<string> := [];
    for k := 0 to |parts|
      invariant |result| == k
      invariant forall i :: 0 <= i < k ==> result[i] == LineOf(parts, i)
      invariant forall j :: 0 <= j < partnums.Length ==> partnums[j] == CountDepth(parts[..k], j + 2)
    {
      assert parts[k].depth <= top;
      var line := NumberEntry(parts, k, partnums);
      LinesExtend(parts, k, result, line);
      result := result + [line];
    }
    LinesComplete(parts, result);
    return Ok(result);
  }

  // =====================================================================
  // The whole lister

  /** parse_bodystructure: `None` when the envelope pattern does not match,
      IndexError from an unmatched ")", ValueError when nothing is left to
      number, and otherwise the numbered listing. */
  function BodyStructureListing(s: string): Result<Option<seq<string>>> {
    if !EnvelopeMatches(s) then Ok(None)
    else
      match Scan(s)
      case Err(e) => Err(e)
      case Ok(groups) =>
        var parts := Merged(groups);
        if parts == [] then Err(ValueError) else Ok(Some(NumberedLines(parts)))
  }

  method ParseBodystructure(s: string) returns (r: Result<Option<seq<string>>>)
    ensures r == BodyStructureListing(s)
  {
    if !EnvelopeMatches(s) {
      return Ok(None);  // the warning written to stderr is not modelled
    }
    var scanned := ParseParts(s);
    if scanned.Err? {
      return Err(scanned.error);
    }
    var parts := MergeParts(scanned.value);
    var lines := AddPartNums(parts);
    if lines.Err? {
      return Err(lines.error);
    }
    return Ok(Some(lines.value));
  }
}
