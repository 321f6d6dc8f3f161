# IMAP-Tools: the BODYSTRUCTURE part-number lister and its FETCH helpers

This project models and verifies the computing core of IMAP-Tools, a small
Python 2 toolkit for exploring an IMAP mailbox:

- **bodystructure.py** takes a FETCH `BODY`/`BODYSTRUCTURE` response (the
  body structure grammar of section 7.4.2 of RFC 3501). It lists every MIME
  part with its dotted part number (the part specifiers of section 6.4.5 of
  RFC 3501). It works in three stages:
  - `parse_parts` scans the parentheses with a stack of open offsets. For
    every `)` it yields `(multipart_subtype, depth, text)`.
  - `parse_bodystructure` checks the response against an envelope pattern.
    It then merges the groups into one list of `(depth, text)` entries: leaf
    descriptors are appended, and container markers are inserted by a
    backward search.
  - `add_part_nums` keeps one counter per absolute depth. It renders one
    tab-indented line per entry.
- **parse_fetch.py** parses other FETCH responses: header fields
  (`parse_fields`), the message number, `RFC822.SIZE` and attachment names.
  It hands BODYSTRUCTURE responses to the lister.
- **mail.py** contributes `Mail.get_changed_items`, a dictionary diff, and
  `parse_special`, which rewrites EXAMINE and partial FETCH commands. The
  argument list is changed in place.

The modules follow the program:
- `Results` holds Option, Result and the Python exceptions the code can raise.
- `Text` holds the Python string operations the code uses: `strip`, `split`,
  `join`, `upper`, `str(n)` and `int()` on digits.
- `BodyPatterns` holds the fixed regular expressions of bodystructure.py,
  written out as predicates with their meaning proved.
- `BodyStructure` holds the three stages.
- `BodyStructureSample` holds the worked example at the end of
  bodystructure.py.
- `ParseFetch` and `Mail` model the other two files.

The imperative pieces stay imperative:
- the scanner loop, `ParseParts`;
- the merge loop and its backward search, `MergeParts` and `MergeGroup`;
- the counter array of `add_part_nums`, `AddPartNums` and `NumberEntry`;
- the in-place rewrite of the caller's argument list, `Mail.ParseSpecial`
  on the `ArgList` class.

Each of them is proved against a specification function, and the
properties are proved about that function.

Where the code and its own description disagree, the model follows the code:
- **The backward search.** The test there is `depth < parts[i]`,
  bodystructure.py:33. It compares an `int` with a `(depth, text)` tuple.
  Python 2 orders every number below every tuple, so the search always
  runs to the front. Every container marker is therefore inserted at
  index 0. The merged list is the markers in reverse yield order, followed
  by the leaves in yield order. A search by depth, inserting each marker
  before its first child, is not what the code does.
- **The counters.** Container markers deeper than 1 increment the counters
  like any other entry, and no counter is ever reset.

For the sample response in bodystructure.py both readings give the
documented output. `BodyStructureSample.SampleGroupsListing` proves that
the code's reading does, starting from the groups the scanner yields for
that response.

## Model

| member | source | states |
|---|---|---|
| BodyPatterns.MemberMeaning | bodystructure.py:13-14 | The recursive membership test used for `in SUBTYPES` holds exactly when the name is in the list. |
| BodyPatterns.AlternativesMeaning | bodystructure.py:16-17 | The regex alternation at `i`: a non-empty result is the text at `i`, in its original case. It upper-cases to a keyword and a double quote follows it. An empty result means that no keyword, in any case, occurs there followed by a quote. |
| BodyPatterns.QuotedKeywordMeaning | bodystructure.py:16-17 | `re.match` of `\s*"(K1\|…\|Kn)"` with re.I: a non-empty result is a match after the leading whitespace, and the result is the keyword as written. An empty result means no match at any position or length. |
| BodyPatterns.MultipartSubtypeMeaning | bodystructure.py:13-17 | MULTIPART_SUBTYPE_RE: the subtype is non-empty exactly when optional whitespace and a quoted SUBTYPES member (in any case) follow. It is then in SUBTYPES once upper-cased, and it is the text between the quotes. |
| BodyPatterns.ContentTypeMeaning | bodystructure.py:16 | CONTENT_TYPE_RE matches exactly when the text starts with optional whitespace and a quoted TEXT, APPLICATION, IMAGE, VIDEO or AUDIO, in any case. |
| BodyPatterns.EnvelopeFrom | bodystructure.py:15 | BODYSTRUCTURE_RE searched from `a`: true exactly when some later position starts "(BODY", at most nine word characters, a space, and a ")" before any newline. |
| BodyPatterns.EnvelopeMatchesMeaning | bodystructure.py:15-23 | The envelope gate of parse_bodystructure holds exactly when the pattern matches somewhere in the response. |
| BodyStructure.ParseParts | bodystructure.py:39-51 | The scanning loop with its stack of "(" offsets returns exactly the result of the scan specification `Scan`, including the IndexError from popping an empty stack. |
| BodyStructure.StepKeepsInv | bodystructure.py:42-51 | One character of the loop fails exactly when the level drops below zero. Otherwise it keeps the scanner invariant: the stack holds the unmatched "(" offsets level by level, and there is one correct group per ")" read so far. |
| BodyStructure.ScanPrefixCorrect | bodystructure.py:41-48 | After any prefix, the scan has failed exactly when some shorter prefix has more ")" than "(". Otherwise the invariant holds. |
| BodyStructure.ScanCorrect | bodystructure.py:39-51 | parse_parts raises exactly when a ")" has no unmatched "(". Otherwise it yields one group per ")", in closing order. Each group's text lies strictly between that ")" and its matching "(". Its depth counts the "(" still open after the pop, and its subtype is the MULTIPART_SUBTYPE_RE group right after the ")". A "(" left open yields nothing. |
| BodyStructure.MatchUnique | bodystructure.py:46-47 | A ")" has only one matching "(", so the group's text is determined. |
| BodyStructure.MergeGroup | bodystructure.py:31-36 | One loop iteration: the backward search with the int-vs-tuple test always ends at -1. The marker `(depth - 1, subtype)` therefore goes to the front, the existing entries keep their order, and a content-type leaf `(depth, text)` is appended at the end. |
| BodyStructure.MergeParts | bodystructure.py:29-36 | The merge loop produces the markers in reverse yield order followed by the leaves in yield order. |
| BodyStructure.MergedStep | bodystructure.py:31-36 | One more group puts its marker, if any, in front of the merged list and its leaf, if any, at the back. |
| BodyStructure.MarkersMembers | bodystructure.py:31-34 | The markers are exactly `(depth - 1, subtype)` of the groups that carry a subtype. |
| BodyStructure.LeavesMembers | bodystructure.py:35-36 | The leaves are exactly `(depth, text)` of the groups whose text matches CONTENT_TYPE_RE. |
| BodyStructure.MergedMembers | bodystructure.py:29-36 | The merged list holds exactly these markers and leaves and nothing else, in any order. |
| BodyStructure.MaxDepth | bodystructure.py:56 | `max(parts)[0]` is a depth at least as large as every entry's depth, and some entry has it. |
| BodyStructure.NumberEntry | bodystructure.py:59-65 | One iteration of add_part_nums on the counter array. The counter of the entry's depth is bumped, so the array counts the entries so far at each depth. The line returned is the entry's rendered line. |
| BodyStructure.CountersStep | bodystructure.py:61-63 | Bumping slot `depth - 2` turns the counter array into the counts up to entry `k`. Its first `depth - 1` slots are then the entry's part number. |
| BodyStructure.AddPartNums | bodystructure.py:53-66 | Empty input raises ValueError in `max()`. Otherwise the result is the listing: one line per entry, in order, each the line of that entry. |
| BodyStructure.PartNumberShape | bodystructure.py:61-63 | An entry at depth `d > 1` has a part number of exactly `d - 1` components, the last one at least 1. Entries at depth 0 or 1 have none. |
| BodyStructure.SiblingNumbersIncrease | bodystructure.py:56-63 | Two entries at the same depth below the top, in list order, get strictly increasing last components, so their part numbers differ. The counters are never reset. |
| BodyStructure.CountDepthGrows | bodystructure.py:62 | A counter never decreases along the list. |
| BodyStructure.DottedNumberRoundTrip | bodystructure.py:63 | Splitting a part number's dotted string at "." gives one digit string per component, which reads back as that component. |
| BodyStructure.DottedNumberInjective | bodystructure.py:63 | Distinct part numbers render as distinct dotted strings. |
| BodyStructure.SplitJoin | bodystructure.py:63 | `split('.')` undoes `'.'.join` of dot-free pieces. |
| BodyStructure.LineShape | bodystructure.py:57-65 | get_part_str: an entry at depth 0 or 1 renders as its label alone. A deeper entry renders as `depth - 1` tabs, its non-empty dotted number, one space and its label. |
| BodyStructure.LeafKeepsText | bodystructure.py:60-64 | A leaf keeps its own text as label: its text contains a double quote, so its upper-cased form is never in SUBTYPES. |
| BodyStructure.MarkerLabel | bodystructure.py:60-64 | A marker's label is "MULTIPART/" followed by its subtype upper-cased. |
| BodyStructure.ParseBodystructure | bodystructure.py:19-37 | parse_bodystructure returns `None` when the envelope pattern does not match. IndexError comes from an unmatched ")" and ValueError from an empty merged list. Otherwise the result is the numbered listing of the merged groups. The method equals `BodyStructureListing`. |
| BodyStructureSample.ShapeNumbers | bodystructure.py:59-63 | Entries at depths 1, 2, 3, 4, 4, 3, 3, 2 get the part numbers "", 1, 1.1, 1.1.1, 1.1.2, 1.2, 1.3, 2. |
| BodyStructureSample.ShapeListing | bodystructure.py:76-84 | Entries of that shape, with upper-case subtypes on the first three and quoted texts on the rest, render as the sample's eight lines. |
| BodyStructureSample.SampleListing | bodystructure.py:70-84 | The merged entries of the sample response are listed exactly as the documented sample output, with its tabs. |
| BodyStructure.MarkersLeavesConcat | bodystructure.py:29-36 | The markers and the leaves of two consecutive runs of groups are those of the first run followed by those of the second. |
| BodyStructure.ThreeRuns | bodystructure.py:29-36 | The same for three consecutive runs. |
| BodyStructureSample.SampleParameters | bodystructure.py:16 | The sample's four parameter lists (`"charset" …`, `"name" …`) do not match CONTENT_TYPE_RE, so they are not leaves. |
| BodyStructureSample.SampleContainers | bodystructure.py:16 | The sample's three container groups and the BODY item start with "(" and are not leaves. |
| BodyStructureSample.SampleBodyParts | bodystructure.py:16 | The sample's two TEXT, two IMAGE and one APPLICATION parts match CONTENT_TYPE_RE, so they are leaves. |
| BodyStructureSample.TwoLeafMerge | bodystructure.py:29-36 | The five groups of a two-leaf container (parameters, leaf, parameters, leaf with the subtype, container) contribute one marker `(d - 1, subtype)` and the two leaves at depth `d`. |
| BodyStructureSample.LastLeafMerge | bodystructure.py:29-36 | The last leaf of a container with its subtype, then the container and the group around it, contribute one marker `(d - 1, subtype)` and that leaf. |
| BodyStructureSample.ThreeContainersMerge | bodystructure.py:29-36 | Containers closed at depths 4, 3 and then 2 merge to their three markers, outermost first, then their five leaves in yield order. |
| BodyStructureSample.SampleMerge | bodystructure.py:29-36 | The merge of the sample's fourteen groups gives its eight entries: MIXED, RELATED and ALTERNATIVE first, then the five parts in order. |
| BodyStructureSample.SampleGroupsListing | bodystructure.py:70-84 | From the sample's groups, the merge and the numbering give exactly the documented sample output, with its tabs. |
| ParseFetch.FieldPair | parse_fetch.py:35 | `split(':', 1)` plus strip gives one stripped element when the line has no colon, and two otherwise. |
| ParseFetch.FieldPairParts | parse_fetch.py:35 | The pair's first element is the stripped name before the first colon. It has two elements exactly when the line has a colon, and the second is then the stripped rest. |
| ParseFetch.DictOfMeaning | parse_fetch.py:35-36 | `dict()` of the pairs fails exactly when some element is not a pair. Otherwise its keys are exactly the first elements, and each key holds the value of its last pair. |
| ParseFetch.ParseFieldsFails | parse_fetch.py:32-36 | parse_fields raises ValueError exactly when a line of the stripped input has no colon. |
| ParseFetch.ParseFieldsKeys | parse_fetch.py:32-36 | The dictionary's keys are exactly the header names of the lines. |
| ParseFetch.ParseFieldsLastWins | parse_fetch.py:32-36 | A line's stripped value sits under its name unless a later line repeats the name. |
| ParseFetch.FieldValueKeepsColons | parse_fetch.py:35 | Only the first colon splits, so `name: a:b` has the value `a:b`. |
| ParseFetch.PyIntDigits | parse_fetch.py:41 | `int()` of a run of digits is the number it denotes. |
| ParseFetch.PyIntNegativeDigits | parse_fetch.py:41 | `int()` of a minus sign and a run of digits is that number negated. |
| ParseFetch.PyIntDecimal | parse_fetch.py:41 | `int(str(n)) == n`. |
| ParseFetch.PyIntNegative | parse_fetch.py:41 | `int('-' + str(n)) == -n`. |
| ParseFetch.MessageIdFirstToken | parse_fetch.py:38-41 | parse_message_id reads only the text before the first space. Whatever follows that space does not matter. |
| ParseFetch.MessageIdRoundTrip | parse_fetch.py:38-41 | A response `n …` yields message number `n`. |
| ParseFetch.FirstSizeMatch | parse_fetch.py:44 | `SIZE_RE.search`: the leftmost position where "RFC822", any non-newline character (the unescaped dot), "SIZE " and a digit occur. There is no match before it. |
| ParseFetch.Rfc822SizeFails | parse_fetch.py:43-44 | parse_rfc822_size fails, with AttributeError from `.group` on None, exactly when no such occurrence exists. |
| ParseFetch.Rfc822SizeRoundTrip | parse_fetch.py:43-44 | `… RFC822.SIZE n …` reads back as `n` when no match of the pattern starts before the item and no digit follows it. |
| ParseFetch.Rfc822SizeAfterPlainText | parse_fetch.py:43-44 | In particular `n` reads back when no "R" comes before the item, since every match starts with one. |
| ParseFetch.SizeDigitsRead | parse_fetch.py:44 | The greedy `\d+` after the first "RFC822.SIZE " takes the whole digit run. |
| ParseFetch.NameEnd | parse_fetch.py:5 | ATTACHMENTS_RE at `i`: when the look-behind `"name"\s"` holds, the end is the first double quote after `i` with no newline before it. Otherwise no match starts there. |
| ParseFetch.NameSpansSound | parse_fetch.py:52 | findall's spans are matches, from left to right and without overlap. |
| ParseFetch.NameSpansComplete | parse_fetch.py:52 | findall misses no match that starts outside the earlier spans. |
| ParseFetch.AttachmentNamesMeaning | parse_fetch.py:46-52 | get_attachment_names returns one name per span, each the text of a match, in order and without overlap. Every match the scan does not skip over yields its name. |
| ParseFetch.OneAttachmentName | parse_fetch.py:46-52 | A name element `("name" "x")` yields exactly `[x]`. |
| ParseFetch.ParseBodystructure | parse_fetch.py:7-13 | The delegation returns exactly what bodystructure's parse_bodystructure returns. |
| Mail.ChangedValuesMeaning | mail.py:97-98 | The filtered comprehension holds a value exactly when some listed key has different values in `x` and `y` and maps to that value in `x`. |
| Mail.ChangedValuesCount | mail.py:97-98 | With distinct keys, it has one element per shared key whose values differ. |
| Mail.ChangedItemsContents | mail.py:93-99 | get_changed_items holds a value exactly when some key of `x` is missing from `y`, or maps to a different value there, and holds that value in `x`. Keys only in `y` and unchanged shared keys add nothing. |
| Mail.ChangedItemsLayout | mail.py:93-99 | The result's length is the number of new keys plus the number of changed shared keys. The new-key values come first, one per key of `x` missing from `y`. |
| Mail.ChangedItemsSelf | mail.py:93-99 | `get_changed_items(x, x)` is empty. |
| Mail.RangeLengths | mail.py:140 | `<(\d+)\.(\d+)>` at a fixed position gives its group lengths exactly when it matches there. |
| Mail.RangeUnique | mail.py:140 | Two matches at the same position have the same groups. |
| Mail.FirstRange | mail.py:140 | `re.search` finds the leftmost match, with no match before it. |
| Mail.PartialRangeMeaning | mail.py:140-141 | The search finds nothing exactly when no `<digits.digits>` occurs. Otherwise it returns the two digit strings of the leftmost occurrence. |
| Mail.PartialRangeRoundTrip | mail.py:140-143 | `BODY[…]<start.length>` yields the digit strings of `start` and `length` as written. |
| Mail.Rewrite | mail.py:134-143 | EXAMINE becomes SELECT with `True` appended. A FETCH with an octet range becomes FETCH_PARTIAL with the two digit strings appended. The command names FETCH_PARTIAL exactly when a range occurs, and with no range the FETCH is unchanged. Any other command is unchanged. A FETCH without a second argument raises IndexError, and one whose second argument is not a string raises TypeError. The argument list only grows. |
| Mail.FetchPartialAppends | mail.py:140-143 | FETCH_PARTIAL appends exactly two non-empty digit strings, the groups of the leftmost range. |
| Mail.ParseSpecial | mail.py:134-144 | The caller's list is rewritten in place as `Rewrite` says, and left alone on an error. With `is_uid` the method returns "UID" and a fresh list, the new command followed by the arguments. Otherwise it returns the new command and the caller's own list. |
| Text.SplitOn | parse_fetch.py:36 | `split(sep)` gives at least one piece, and joining the pieces with `sep` gives back the text. No piece contains `sep`. |
| Text.SplitFirstAt | parse_fetch.py:35 | `split(c, 1)` of `a + c + b`, where `a` has no `c`, is `[a, b]`. |
| Text.Strip | parse_fetch.py:35-36 | `strip()` returns a slice of its input with only whitespace before and after it. Neither end of the slice is whitespace, and it is empty only for all-whitespace input. |
| Text.DecimalStringValue | bodystructure.py:63 | `str(n)` reads back as `n`. |

## Left out

- Debug output, the stderr warning and the stray `print` are not modelled.
  This covers the `DBUG` prints of bodystructure.py, the warning written by
  parse_bodystructure when the envelope does not match, and the `print` in
  parse_message_id. They are output only and change no result.
- `parse_parts` is a generator that parse_bodystructure consumes lazily. It
  is modelled as producing the whole list: nothing is consumed before the
  list is complete, and an unmatched ")" raises either way.
- The envelope pattern's capture group (`match.group(1)`) is not modelled.
  Only the debug print uses it. The scan runs on the whole response.
- The scanner is not run on the sample response itself.
  `BodyStructureSample.SampleGroups` lists the fourteen groups parse_parts
  yields for it, written out by hand. The merge of those groups and their
  listing are proved. That the scanner yields exactly these groups is not:
  the scanner is proved correct in general only.
- In Mail.get_changed_items, the order of set iteration is given as two
  inputs, `newKeys` and `sharedKeys`, each listing its set once. Python's
  hash order is unspecified.
- ParseFetch.PyInt models Python's `int()` for surrounding whitespace, an
  optional sign and decimal digits, with ValueError for anything else. Any
  other form `int()` may take, such as whitespace between the sign and the
  digits, is not modelled. The message numbers and sizes read here are plain
  digit runs.
- Mail.ParseSpecial: an argument is a string or the `True` flag, the only
  kinds the code creates. A `re.search` on a non-string raises TypeError.
- Of parse_fetch.py, `parse_message`, `parse_flags` and `parse_internaltime`
  are not modelled. They are thin wrappers over the `email` and `imaplib`
  libraries, whose code is not part of this model.
- The rest of mail.py is not modelled: the connection, login, logout,
  command sending, response dispatch (`parse_data`) and display methods of
  `Mail`, `parse_command` and `main`. They are network and terminal I/O over imaplib, and they use a
  command table (`imapcmds`) that is not part of this model.
- detach.py is not modelled. It is IMAP session glue that only chains the
  parse_fetch calls.
