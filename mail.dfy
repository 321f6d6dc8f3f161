/** The two pieces of mail.py that compute rather than talk to the server:
    the dictionary diff of Mail.get_changed_items and the command
    rewriting of parse_special. */
module Mail {
  import opened Results
  import opened Text

  // =====================================================================
  // Mail.get_changed_items

  /** `ks` lists the members of `keys` once each: the order in which
      Python happens to iterate a set. */
  predicate Enumerates<K>(ks: seq<K>, keys: set<K>) {
    (forall i :: 0 <= i < |ks| ==> ks[i] in keys)
    && (forall k :: k in keys ==> k in ks)
    && (forall i, j :: 0 <= i < j < |ks| ==> ks[i] != ks[j])
  }

  /** `[x[i] for i in ks]`. */
  function ValuesOf<K, V>(x: map<K, V>, ks: seq<K>): (r: seq<V>)
    requires forall k :: k in ks ==> k in x
    ensures |r| == |ks|
    ensures forall i :: 0 <= i < |ks| ==> r[i] == x[ks[i]]
    ensures forall k :: k in ks ==> x[k] in r
  {
    seq(|ks|, i requires 0 <= i < |ks| => x[ks[i]])
  }

  /** `[x[i] for i in ks if x[i] != y[i]]`. */
  function ChangedValues<K, V(==)>(x: map<K, V>, y: map<K, V>, ks: seq<K>): seq<V>
    requires forall k :: k in ks ==> k in x && k in y
  {
    if ks == [] then []
    else
      var k := ks[|ks| - 1];
      ChangedValues(x, y, ks[..|ks| - 1]) + (if x[k] != y[k] then [x[k]] else [])
  }

  /** get_changed_items(x, y): the values of the keys of `x` missing from
      `y`, then the values of the shared keys whose values differ. The two
      key sets are iterated in the orders `newKeys` and `sharedKeys`. */
  function GetChangedItems<K, V(==)>(x: map<K, V>, y: map<K, V>, newKeys: seq<K>, sharedKeys: seq<K>): seq<V>
    requires Enumerates(newKeys, x.Keys - y.Keys)
    requires Enumerates(sharedKeys, x.Keys * y.Keys)
  {
    ValuesOf(x, newKeys) + ChangedValues(x, y, sharedKeys)
  }

  /** The filtered values are those of the listed keys whose values
      differ, in list order. */
  lemma {:induction false} ChangedValuesMeaning<K, V>(x: map<K, V>, y: map<K, V>, ks: seq<K>)
    requires forall k :: k in ks ==> k in x && k in y
    ensures forall v :: v in ChangedValues(x, y, ks) <==> exists k :: k in ks && x[k] != y[k] && x[k] == v
  {
    if ks != [] {
      var front := ks[..|ks| - 1];
      var k := ks[|ks| - 1];
      assert forall k' :: k' in ks <==> k' in front || k' == k;
      ChangedValuesMeaning(x, y, front);
    }
  }

  /** A key whose changed value `v` is. */
  lemma ChangedValueSource<K, V>(x: map<K, V>, y: map<K, V>, ks: seq<K>, v: V) returns (k: K)
    requires forall k :: k in ks ==> k in x && k in y
    requires v in ChangedValues(x, y, ks)
    ensures k in ks && x[k] != y[k] && x[k] == v
  {
    ChangedValuesMeaning(x, y, ks);
    k :| k in ks && x[k] != y[k] && x[k] == v;
  }

  /** With distinct keys, one value per listed key whose values differ. */
  lemma {:induction false} ChangedValuesCount<K, V>(x: map<K, V>, y: map<K, V>, ks: seq<K>)
    requires forall k :: k in ks ==> k in x && k in y
    requires forall i, j :: 0 <= i < j < |ks| ==> ks[i] != ks[j]
    ensures |ChangedValues(x, y, ks)| == |set k | k in ks && k in x && k in y && x[k] != y[k]|
  {
    if ks != [] {
      var front := ks[..|ks| - 1];
      var k := ks[|ks| - 1];
      ChangedValuesCount(x, y, front);
      var before := set k' | k' in front && k' in x && k' in y && x[k'] != y[k'];
      var after := set k' | k' in ks && k' in x && k' in y && x[k'] != y[k'];
      assert k !in front;
      if x[k] != y[k] {
        assert after == before + {k};
      } else {
        assert after == before;
      }
    }
  }

  /** A list of distinct keys has as many members as entries. */
  lemma {:induction false} DistinctCount<K>(ks: seq<K>)
    requires forall i, j :: 0 <= i < j < |ks| ==> ks[i] != ks[j]
    ensures |set k | k in ks| == |ks|
  {
    if ks != [] {
      var front := ks[..|ks| - 1];
      DistinctCount(front);
      assert ks[|ks| - 1] !in front;
      assert (set k | k in ks) == (set k | k in front) + {ks[|ks| - 1]};
    }
  }

  /** get_changed_items returns a value exactly when some key of `x` is
      missing from `y` or maps to a different value there and holds that
      value in `x`: keys only in `y` and unchanged shared keys add
      nothing. */
  lemma ChangedItemsContents<K, V>(x: map<K, V>, y: map<K, V>, newKeys: seq<K>, sharedKeys: seq<K>)
    requires Enumerates(newKeys, x.Keys - y.Keys)
    requires Enumerates(sharedKeys, x.Keys * y.Keys)
    ensures forall v :: v in GetChangedItems(x, y, newKeys, sharedKeys) <==>
      exists k :: k in x && (k !in y || x[k] != y[k]) && x[k] == v
  {
    var news, changed := ValuesOf(x, newKeys), ChangedValues(x, y, sharedKeys);
    var r := GetChangedItems(x, y, newKeys, sharedKeys);
    assert r == news + changed;
    assert forall k :: k in sharedKeys ==> k in x && k in y;
    ChangedValuesMeaning(x, y, sharedKeys);
    forall v | v in r ensures exists k :: k in x && (k !in y || x[k] != y[k]) && x[k] == v {
      if v in changed {
        var k := ChangedValueSource(x, y, sharedKeys, v);
        assert k in x.Keys * y.Keys;
      } else {
        var i :| 0 <= i < |newKeys| && news[i] == v;
        assert newKeys[i] in x.Keys - y.Keys;
      }
    }
    forall v | exists k :: k in x && (k !in y || x[k] != y[k]) && x[k] == v ensures v in r {
      var k :| k in x && (k !in y || x[k] != y[k]) && x[k] == v;
      if k !in y {
        assert k in x.Keys - y.Keys;
        assert k in newKeys;
        var i :| 0 <= i < |newKeys| && newKeys[i] == k;
        assert r[i] == v;
      } else {
        assert k in x.Keys * y.Keys;
        assert v in changed;
      }
    }
  }

  /** The new-key values come first, one per key of `x` not in `y`, and the
      changed values follow, one per shared key whose values differ. */
  lemma ChangedItemsLayout<K, V>(x: map<K, V>, y: map<K, V>, newKeys: seq<K>, sharedKeys: seq<K>)
    requires Enumerates(newKeys, x.Keys - y.Keys)
    requires Enumerates(sharedKeys, x.Keys * y.Keys)
    ensures var r := GetChangedItems(x, y, newKeys, sharedKeys);
      && |r| == |x.Keys - y.Keys| + |set k | k in x && k in y && x[k] != y[k]|
      && |newKeys| == |x.Keys - y.Keys|
      && (forall i :: 0 <= i < |newKeys| ==> newKeys[i] in x && newKeys[i] !in y && r[i] == x[newKeys[i]])
  {
    DistinctCount(newKeys);
    assert (set k | k in newKeys) == x.Keys - y.Keys;
    ChangedValuesCount(x, y, sharedKeys);
    assert (set k | k in sharedKeys && k in x && k in y && x[k] != y[k]) == (set k | k in x && k in y && x[k] != y[k]);
  }

  /** Comparing a dictionary with itself reports nothing. */
  lemma ChangedItemsSelf<K, V>(x: map<K, V>, newKeys: seq<K>, sharedKeys: seq<K>)
    requires Enumerates(newKeys, x.Keys - x.Keys)
    requires Enumerates(sharedKeys, x.Keys * x.Keys)
    ensures GetChangedItems(x, x, newKeys, sharedKeys) == []
  {
    ChangedItemsLayout(x, x, newKeys, sharedKeys);
    assert x.Keys - x.Keys == {};
    assert forall k :: k in sharedKeys ==> k in x;
    ChangedValuesUnchanged(x, x, sharedKeys);
  }

  lemma {:induction false} ChangedValuesUnchanged<K, V>(x: map<K, V>, y: map<K, V>, ks: seq<K>)
    requires forall k :: k in ks ==> k in x && k in y && x[k] == y[k]
    ensures ChangedValues(x, y, ks) == []
  {
    if ks != [] {
      ChangedValuesUnchanged(x, y, ks[..|ks| - 1]);
    }
  }

  // =====================================================================
  // parse_special

  /** An element of the argument list: the command's string arguments, or
      the `True` that EXAMINE appends. */
  datatype Arg = Str(s: string) | Flag(b: bool)

  /** The caller's argument list, which parse_special extends in place. */
  class ArgList {
    var items: seq<Arg>

    constructor(items: seq<Arg>)
      ensures this.items == items
    {
      this.items := items;
    }
  }

  /** `<(\d+)\.(\d+)>` matches at `a` with `n1` and `n2` digits in its
      two groups. */
  predicate RangeAt(s: string, a: int, n1: int, n2: int) {
    0 <= a && 1 <= n1 && 1 <= n2 && a + n1 + n2 + 3 <= |s|
    && s[a] == '<' && (forall k :: a + 1 <= k < a + 1 + n1 ==> IsDigit(s[k])) && s[a + 1 + n1] == '.'
    && (forall k :: a + 2 + n1 <= k < a + 2 + n1 + n2 ==> IsDigit(s[k])) && s[a + 2 + n1 + n2] == '>'
  }

  /** The group lengths of the match of the regex at `a`, if it matches
      there. */
  function RangeLengths(s: string, a: nat): (r: Option<(nat, nat)>)
    requires a <= |s|
    ensures r.Some? ==> RangeAt(s, a, r.value.0, r.value.1)
    ensures r.None? ==> forall n1, n2 :: !RangeAt(s, a, n1, n2)
  {
    RangeGroupsAre(s, a);
    if a < |s| && s[a] == '<' then
      var n1 := DigitRun(s, a + 1);
      if n1 >= 1 && a + 1 + n1 < |s| && s[a + 1 + n1] == '.' then
        var n2 := DigitRun(s, a + 2 + n1);
        if n2 >= 1 && a + 2 + n1 + n2 < |s| && s[a + 2 + n1 + n2] == '>' then Some((n1, n2))
        else None
      else None
    else None
  }

  /** The groups of a match at `a` are determined by `a`: each `\d+` can
      only end where the digits do, since the character after it is not a
      digit. */
  lemma RangeGroupsAre(s: string, a: nat)
    requires a <= |s|
    ensures forall n1, n2 :: RangeAt(s, a, n1, n2) ==>
      n1 == DigitRun(s, a + 1) && n2 == DigitRun(s, a + 2 + n1)
  {
    forall n1, n2 | RangeAt(s, a, n1, n2)
      ensures n1 == DigitRun(s, a + 1) && n2 == DigitRun(s, a + 2 + n1)
    {
      DigitRunUnique(s, a + 1, n1);
      DigitRunUnique(s, a + 2 + n1, n2);
    }
  }

  /** Two matches at the same place have the same groups. */
  lemma RangeUnique(s: string, a: nat, n1: nat, n2: nat, n1': nat, n2': nat)
    requires RangeAt(s, a, n1, n2) && RangeAt(s, a, n1', n2')
    ensures n1 == n1' && n2 == n2'
  {
    DigitRunUnique(s, a + 1, n1);
    DigitRunUnique(s, a + 1, n1');
    DigitRunUnique(s, a + 2 + n1, n2);
    DigitRunUnique(s, a + 2 + n1, n2');
  }

  /** The leftmost match at or after `a`: its start and the lengths of its
      two groups. */
  function FirstRange(s: string, a: nat): (r: Option<(nat, nat, nat)>)
    requires a <= |s|
    ensures r.Some? ==> a <= r.value.0 && RangeAt(s, r.value.0, r.value.1, r.value.2)
    ensures forall b, n1, n2 :: a <= b && (r.None? || b < r.value.0) ==> !RangeAt(s, b, n1, n2)
    decreases |s| - a
  {
    if a == |s| then None
    else
      match RangeLengths(s, a)
      case Some((n1, n2)) => Some((a, n1, n2))
      case None => FirstRange(s, a + 1)
  }

  /** `re.search('<(\d+)\.(\d+)>', s).groups()`, or None. */
  function PartialRange(s: string): Option<(string, string)> {
    match FirstRange(s, 0)
    case None => None
    case Some((a, n1, n2)) => Some((s[a + 1..a + 1 + n1], s[a + 2 + n1..a + 2 + n1 + n2]))
  }

  /** The search finds the leftmost octet range `<start.length>` in the
      message-parts argument and returns its two digit strings; it finds
      nothing exactly when no range occurs. */
  lemma PartialRangeMeaning(s: string)
    ensures PartialRange(s).None? <==> forall a, n1, n2 :: !RangeAt(s, a, n1, n2)
    ensures PartialRange(s).Some? ==> exists a, n1, n2 ::
      && RangeAt(s, a, n1, n2)
      && (forall b, m1, m2 :: b < a ==> !RangeAt(s, b, m1, m2))
      && PartialRange(s).value == (s[a + 1..a + 1 + n1], s[a + 2 + n1..a + 2 + n1 + n2])
  {
    if FirstRange(s, 0).Some? {
      var r := FirstRange(s, 0).value;
      assert RangeAt(s, r.0, r.1, r.2);
    }
  }

  /** A partial fetch `BODY[...]<start.length>` hands back the digits of
      `start` and of `length` as written. */
  lemma PartialRangeRoundTrip(pre: string, start: string, length: string, post: string)
    requires start != [] && AllDigits(start) && length != [] && AllDigits(length)
    requires '<' !in pre
    ensures PartialRange(pre + "<" + start + "." + length + ">" + post) == Some((start, length))
  {
    var s := pre + "<" + start + "." + length + ">" + post;
    RangeIn(s, pre, start, length, post);
    var r := FirstRange(s, 0).value;
    RangeUnique(s, |pre|, r.1, r.2, |start|, |length|);
  }

  /** Where the range sits in `pre<d1.d2>post` and what its groups hold. */
  lemma RangeIn(s: string, pre: string, d1: string, d2: string, post: string)
    requires s == pre + "<" + d1 + "." + d2 + ">" + post
    requires d1 != [] && d2 != [] && AllDigits(d1) && AllDigits(d2) && '<' !in pre
    ensures FirstRange(s, 0).Some? && FirstRange(s, 0).value.0 == |pre|
    ensures RangeAt(s, |pre|, |d1|, |d2|)
    ensures s[|pre| + 1..|pre| + 1 + |d1|] == d1 && s[|pre| + 2 + |d1|..|pre| + 2 + |d1| + |d2|] == d2
  {
    var a := |pre|;
    var p1, q1 := pre + "<", "." + d2 + ">" + post;
    var p2, q2 := p1 + d1 + ".", ">" + post;
    Regroup7(pre, "<", d1, ".", d2, ">", post);
    RunAt(s, p1, d1, q1);
    RunAt(s, p2, d2, q2);
    assert RangeAt(s, a, |d1|, |d2|);
    forall b, m1, m2 | b < a ensures !RangeAt(s, b, m1, m2) {
      assert b < 0 || s[b] == pre[b];
    }
  }

  lemma Regroup7<T>(a: seq<T>, b: seq<T>, c: seq<T>, d: seq<T>, e: seq<T>, f: seq<T>, g: seq<T>)
    ensures a + b + c + d + e + f + g == (a + b) + c + (d + e + f + g)
    ensures a + b + c + d + e + f + g == (a + b + c + d) + e + (f + g)
  {
  }

  /** The specification of ParseSpecial, the model of parse_special: what
      parse_special does to the command and the argument list:
      EXAMINE runs as SELECT with a read-only flag appended; a FETCH whose
      message-parts argument holds an octet range becomes FETCH_PARTIAL
      with the two numbers appended; anything else is left as it is. A
      FETCH without a second argument raises IndexError, and one whose
      second argument is not a string raises TypeError in re.search. */
  function Rewrite(command: string, items: seq<Arg>): (r: Result<(string, seq<Arg>)>)
    ensures command == "EXAMINE" ==> r == Ok(("SELECT", items + [Flag(true)]))
    ensures command != "EXAMINE" && command != "FETCH" ==> r == Ok((command, items))
    ensures command == "FETCH" ==> (r.Err? <==> |items| < 2 || items[1].Flag?)
    ensures command == "FETCH" && r.Err? ==> r.error == (if |items| < 2 then IndexError else TypeError)
    ensures command == "FETCH" && r.Ok? ==>
      && (r.value.0 == "FETCH_PARTIAL" <==> exists a, n1, n2 :: RangeAt(items[1].s, a, n1, n2))
      && (r.value.0 != "FETCH_PARTIAL" ==> r.value == (command, items))
    ensures r.Ok? ==> items <= r.value.1
  {
    if command == "EXAMINE" then Ok(("SELECT", items + [Flag(true)]))
    else if command == "FETCH" then
      if |items| < 2 then Err(IndexError)
      else if items[1].Flag? then Err(TypeError)
      else
        PartialRangeMeaning(items[1].s);
        match PartialRange(items[1].s)
        case None => Ok((command, items))
        case Some((start, length)) => Ok(("FETCH_PARTIAL", items + [Str(start), Str(length)]))
    else Ok((command, items))
  }

  /** A FETCH_PARTIAL rewrite appends exactly two digit strings, the
      groups of the leftmost octet range of the message-parts argument. */
  lemma FetchPartialAppends(items: seq<Arg>)
    requires Rewrite("FETCH", items).Ok? && Rewrite("FETCH", items).value.0 == "FETCH_PARTIAL"
    ensures var items' := Rewrite("FETCH", items).value.1;
      && |items'| == |items| + 2
      && items'[|items|].Str? && items'[|items| + 1].Str?
      && PartialRange(items[1].s) == Some((items'[|items|].s, items'[|items| + 1].s))
      && items'[|items|].s != [] && AllDigits(items'[|items|].s)
      && items'[|items| + 1].s != [] && AllDigits(items'[|items| + 1].s)
  {
    PartialRangeMeaning(items[1].s);
  }

  /** The result of parse_special: the command and the list to send. */
  datatype Special = Special(command: string, args: ArgList)

  /** parse_special: the argument list is rewritten in place; with
      `is_uid` a fresh list headed by the command is returned under "UID",
      otherwise the command and the caller's own list. */
  method ParseSpecial(command: string, args: ArgList, isUid: bool) returns (r: Result<Special>)
    modifies args
    ensures Rewrite(command, old(args.items)).Err? ==>
      r == Err(Rewrite(command, old(args.items)).error) && args.items == old(args.items)
    ensures Rewrite(command, old(args.items)).Ok? ==>
      var (command', items') := Rewrite(command, old(args.items)).value;
      && args.items == items'
      && r.Ok?
      && (isUid ==> r.value.command == "UID" && fresh(r.value.args) && r.value.args.items == [Str(command')] + items')
      && (!isUid ==> r.value.command == command' && r.value.args == args)
  {
    var cmd := command;
    if cmd == "EXAMINE" {
      cmd := "SELECT";
      args.items := args.items + [Flag(true)];
    } else if cmd == "FETCH" {
      if |args.items| < 2 {
        return Err(IndexError);
      }
      var parts := args.items[1];
      if parts.Flag? {
        return Err(TypeError);
      }
      var found := PartialRange(parts.s);
      if found.Some? {
        cmd := "FETCH_PARTIAL";
        args.items := args.items + [Str(found.value.0), Str(found.value.1)];
      }
    }
    if isUid {
      var list := new ArgList([Str(cmd)] + args.items);
      return Ok(Special("UID", list));
    }
    return Ok(Special(cmd, args));
  }
}
