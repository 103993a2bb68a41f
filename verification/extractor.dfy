/** The section extractor of the recommendation handler: `extract_list`
    (app.py:71-74) and the truncation applied to its four results
    (app.py:78-81).

    The pattern `Label:\n(.*?)\n(?:\w+:|$)`, searched with DOTALL and
    IGNORECASE, is modelled as an explicit scan: find the first caseless
    occurrence of the header `Label:\n`, then the first terminator after it,
    a `\n` followed by a word run and a colon or by Python's `$`. The
    declarative reading of the search (leftmost start, lazy end) is stated
    separately and proved to agree with the scan. */
module Extractor {
  import opened Wrappers
  import opened Text

  /** The four sections the result page shows. */
  datatype Section = Restaurants | Breakfast | Dinner | Workouts {

    function Label(): string {
      match this
      case Restaurants => "Restaurants"
      case Breakfast => "Breakfast"
      case Dinner => "Dinner"
      case Workouts => "Workouts"
    }

    /** How many items of the section reach the result page. */
    function Limit(): nat {
      match this
      case Restaurants => 6
      case Breakfast => 6
      case Dinner => 5
      case Workouts => 6
    }
  }

  // ---------------------------------------------------------------------------
  // Pattern pieces

  /** The header `Label:\n` occurs at `i`, up to ASCII case. */
  predicate HeaderAt(text: string, name: string, i: nat) {
    i + |name| + 2 <= |text| && CaselessEq(text[i..i + |name| + 2], name + ":\n")
  }

  /** Python's `$` without MULTILINE holds at `p`: the end of the text, or just
      before a final newline. */
  predicate EndAt(text: string, p: nat) {
    p == |text| || (p + 1 == |text| && text[p] == '\n')
  }

  /** The regex `\w+:` matches at `p`: one or more word characters, then a colon. */
  ghost predicate WordColonAt(text: string, p: nat) {
    exists k :: p < k < |text| && text[k] == ':' && forall m :: p <= m < k ==> IsWordChar(text[m])
  }

  /** The end of the longest run of word characters starting at `p`. */
  function WordRunEnd(text: string, p: nat): (k: nat)
    requires p <= |text|
    ensures p <= k <= |text|
    ensures forall m :: p <= m < k ==> IsWordChar(text[m])
    ensures k == |text| || !IsWordChar(text[k])
    decreases |text| - p
  {
    if p < |text| && IsWordChar(text[p]) then WordRunEnd(text, p + 1) else p
  }

  /** Scanning check for `\w+:` at `p`: only the colon right after the longest
      word run can close the token, since a colon is not a word character. */
  function HasWordColon(text: string, p: nat): (b: bool)
    requires p <= |text|
    ensures b <==> WordColonAt(text, p)
  {
    var k := WordRunEnd(text, p);
    var b := p < k < |text| && text[k] == ':';
    assert WordColonAt(text, p) ==> b by {
      if WordColonAt(text, p) {
        var k' :| p < k' < |text| && text[k'] == ':' && forall m :: p <= m < k' ==> IsWordChar(text[m]);
        assert !IsWordChar(text[k']);
        assert k' == k;
      }
    }
    b
  }

  /** The tail of the pattern, `\n(?:\w+:|$)`, matches at `j`. */
  predicate TerminatorAt(text: string, j: nat) {
    j < |text| && text[j] == '\n' && (HasWordColon(text, j + 1) || EndAt(text, j + 1))
  }

  // ---------------------------------------------------------------------------
  // The scan

  /** The first header occurrence at or after `from`. */
  function FindHeader(text: string, name: string, from: nat): (r: Option<nat>)
    requires from <= |text|
    ensures r.Some? ==> from <= r.value && HeaderAt(text, name, r.value)
    ensures forall i: nat :: from <= i && (r.None? || i < r.value) ==> !HeaderAt(text, name, i)
    decreases |text| - from
  {
    if from + |name| + 2 > |text| then None
    else if HeaderAt(text, name, from) then Some(from)
    else FindHeader(text, name, from + 1)
  }

  /** The first terminator at or after `from`. */
  function FindTerminator(text: string, from: nat): (r: Option<nat>)
    requires from <= |text|
    ensures r.Some? ==> from <= r.value && TerminatorAt(text, r.value)
    ensures forall j: nat :: from <= j && (r.None? || j < r.value) ==> !TerminatorAt(text, j)
    decreases |text| - from
  {
    if from == |text| then None
    else if TerminatorAt(text, from) then Some(from)
    else FindTerminator(text, from + 1)
  }

  /** The captured group `(.*?)`, or nothing when the search finds no match. */
  function Capture(text: string, name: string): Option<string> {
    match FindHeader(text, name, 0)
    case None => None
    case Some(i) =>
      match FindTerminator(text, i + |name| + 2)
      case None => None
      case Some(j) => Some(text[i + |name| + 2..j])
  }

  // ---------------------------------------------------------------------------
  // Declarative reading of `re.search`

  /** The whole pattern matches from header position `i` to terminator position `j`. */
  ghost predicate Matches(text: string, name: string, i: nat, j: nat) {
    && HeaderAt(text, name, i)
    && i + |name| + 2 <= j < |text|
    && text[j] == '\n'
    && (WordColonAt(text, j + 1) || EndAt(text, j + 1))
  }

  /** The match `re.search` reports: the leftmost start and, for it, the
      shortest lazy group. */
  ghost predicate IsSearchResult(text: string, name: string, i: nat, j: nat) {
    && Matches(text, name, i, j)
    && (forall i': nat, j': nat :: i' < i ==> !Matches(text, name, i', j'))
    && (forall j': nat :: j' < j ==> !Matches(text, name, i, j'))
  }

  lemma TerminatorIsMatchTail(text: string, j: nat)
    ensures TerminatorAt(text, j) <==>
            (j < |text| && text[j] == '\n' && (WordColonAt(text, j + 1) || EndAt(text, j + 1)))
  {
  }

  /** The scan captures exactly the group of the match `re.search` reports,
      and captures nothing exactly when the pattern matches nowhere. */
  lemma CaptureIsSearchResult(text: string, name: string)
    ensures Capture(text, name).Some? <==> exists i: nat, j: nat :: Matches(text, name, i, j)
    ensures Capture(text, name).Some? ==>
              exists i: nat, j: nat :: IsSearchResult(text, name, i, j)
                                      && Capture(text, name).value == text[i + |name| + 2..j]
  {
    var L := |name| + 2;
    forall j: nat ensures TerminatorAt(text, j) <==>
                          (j < |text| && text[j] == '\n' && (WordColonAt(text, j + 1) || EndAt(text, j + 1))) {
      TerminatorIsMatchTail(text, j);
    }
    match FindHeader(text, name, 0)
    case None =>
      forall i: nat, j: nat ensures !Matches(text, name, i, j) {
        assert !HeaderAt(text, name, i);
      }
    case Some(i) =>
      match FindTerminator(text, i + L)
      case None =>
        forall i': nat, j: nat ensures !Matches(text, name, i', j) {
          if i' < i {
            assert !HeaderAt(text, name, i');
          } else if i + L <= j {
            assert !TerminatorAt(text, j);
          }
        }
      case Some(j) =>
        assert Matches(text, name, i, j);
        forall i': nat, j': nat | i' < i ensures !Matches(text, name, i', j') {
          assert !HeaderAt(text, name, i');
        }
        forall j': nat | j' < j ensures !Matches(text, name, i, j') {
          if i + L <= j' {
            assert !TerminatorAt(text, j');
          }
        }
        assert IsSearchResult(text, name, i, j);
  }

  /** A header is its label followed by a colon and a line break. */
  lemma HeaderShape(text: string, name: string, i: nat)
    requires HeaderAt(text, name, i)
    ensures text[i + |name|] == ':' && text[i + |name| + 1] == '\n'
  {
    var w := text[i..i + |name| + 2];
    var h := name + ":\n";
    assert FoldCase(w[|name|]) == FoldCase(h[|name|]) && FoldCase(w[|name| + 1]) == FoldCase(h[|name| + 1]);
  }

  /** With the first header at `i` and the first terminator after it at `j`,
      the capture is the text between them. */
  lemma CaptureBetween(text: string, name: string, i: nat, j: nat)
    requires HeaderAt(text, name, i)
    requires forall i': nat :: i' < i ==> !HeaderAt(text, name, i')
    requires i + |name| + 2 <= j && TerminatorAt(text, j)
    requires forall j': nat :: i + |name| + 2 <= j' < j ==> !TerminatorAt(text, j')
    ensures Capture(text, name) == Some(text[i + |name| + 2..j])
  {
    var r := FindHeader(text, name, 0);
    if r != Some(i) {
      assert false;
    }
    var t := FindTerminator(text, i + |name| + 2);
    if t != Some(j) {
      assert false;
    }
  }

  // ---------------------------------------------------------------------------
  // Items

  /** `item.strip()[3:].strip()`: the text of one list line with its
      three-character enumeration prefix cut off. A line too short for the
      prefix gives an empty entry, not an error. */
  function CleanItem(line: string): (r: string)
    ensures |Strip(line)| <= 3 ==> r == []
    ensures r == [] || (!IsSpace(r[0]) && !IsSpace(r[|r| - 1]))
  {
    Strip(Drop(Strip(line), 3))
  }

  /** What is left of a stripped line once its first three characters are cut
      and it is stripped again lies further along in the line. */
  lemma CleanItemIsPiece(line: string)
    ensures var r := CleanItem(line);
            r == [] || exists a: nat :: StripStart(line) + 3 <= a && OccursAt(line, r, a)
  {
    var s := Strip(line);
    var d := Drop(s, 3);
    var r := Strip(d);
    if r != [] {
      assert 0 < |d| && 3 < |s|;
      assert d == s[3..];
      StripSlice(line);
      StripSlice(d);
      var a := StripStart(line) + 3 + StripStart(d);
      PieceOfPiece(line, s, StripStart(line), d, StripStart(d), r);
      assert StripStart(line) + 3 <= a && OccursAt(line, r, a);
    }
  }

  /** A slice of the tail of a slice is a slice of the whole. */
  lemma PieceOfPiece(line: string, s: string, a: nat, d: string, b: nat, r: string)
    requires a + |s| <= |line| && s == line[a..a + |s|]
    requires 3 <= |s| && d == s[3..]
    requires b + |r| <= |d| && r == d[b..b + |r|]
    ensures OccursAt(line, r, a + 3 + b)
  {
    forall k | 0 <= k < |r| ensures r[k] == line[a + 3 + b + k] {
      assert r[k] == d[b + k] == s[3 + b + k];
    }
    assert line[a + 3 + b..a + 3 + b + |r|] == r;
  }

  /** The list comprehension over the captured lines: blank lines are dropped,
      every other line becomes its cleaned item. */
  function Items(lines: seq<string>): seq<string> {
    FlatMap(ItemOf, lines)
  }

  /** The entry one line contributes: nothing when it is blank after stripping. */
  function ItemOf(line: string): seq<string> {
    if Strip(line) == [] then [] else [CleanItem(line)]
  }

  /** `extract_list(section)`: the cleaned non-blank lines of the captured block,
      or `[]` when the pattern does not match. */
  function ExtractList(text: string, section: Section): (r: seq<string>)
    ensures Capture(text, section.Label()).None? ==> r == []
    ensures Capture(text, section.Label()).Some? ==> |r| <= |Split(Capture(text, section.Label()).value, '\n')|
  {
    match Capture(text, section.Label())
    case None => []
    case Some(block) =>
      ItemsAreLineEntries(Split(block, '\n'));
      Items(Split(block, '\n'))
  }

  // ---------------------------------------------------------------------------
  // Properties of the extraction

  /** The items of two runs of lines are the items of each, in order: one
      entry per non-blank line, nothing reordered. */
  lemma ItemsAppend(a: seq<string>, b: seq<string>)
    ensures Items(a + b) == Items(a) + Items(b)
  {
    FlatMapAppend(ItemOf, a, b);
  }

  /** A single line gives its cleaned item, or nothing when it is blank. */
  lemma ItemsOfLine(line: string)
    ensures Items([line]) == if AllSpace(line) then [] else [CleanItem(line)]
  {
    assert [line][1..] == [];
    assert Items([line]) == ItemOf(line) + Items([]);
    assert Strip(line) == [] <==> AllSpace(line);
  }

  /** A line numbered with a three-character prefix such as `1. ` gives the
      rest of the line, stripped. */
  lemma EnumeratedLineGivesItem(prefix: string, item: string)
    requires |prefix| == 3 && !IsSpace(prefix[0])
    ensures CleanItem(prefix + item) == Strip(item)
  {
    if AllSpace(item) {
      BlankAfterPrefix(prefix, item);
    } else {
      TextAfterPrefix(prefix, item);
    }
  }

  /** When text follows the prefix, the cleaned line is the item with its
      trailing whitespace cut, stripped again. */
  lemma TextAfterPrefix(prefix: string, item: string)
    requires |prefix| == 3 && !IsSpace(prefix[0]) && !AllSpace(item)
    ensures CleanItem(prefix + item) == Strip(item)
  {
    var ib := SkipSpaceBack(item, |item|);
    StripOfPrefixed(prefix, item, ib);
    assert Drop(prefix + item[..ib], 3) == item[..ib];
    StripIgnoresTrailingSpace(item, ib);
  }

  /** Stripping a line that starts with a non-blank prefix only cuts the
      trailing whitespace of what follows the prefix. */
  lemma StripOfPrefixed(prefix: string, item: string, ib: nat)
    requires |prefix| == 3 && !IsSpace(prefix[0]) && !AllSpace(item)
    requires ib == SkipSpaceBack(item, |item|)
    ensures Strip(prefix + item) == prefix + item[..ib]
  {
    var s := prefix + item;
    var e := 3 + ib;
    assert 0 < ib <= |item|;
    assert SpaceBetween(s, e, |s|) by {
      forall k | e <= k < |s| ensures IsSpace(s[k]) {
        assert s[k] == item[k - 3];
      }
    }
    assert !IsSpace(s[0]) && !IsSpace(s[e - 1]) by {
      assert s[0] == prefix[0] && s[e - 1] == item[ib - 1];
    }
    assert s[0..e] == prefix + item[..ib];
    StripIsUnique(s, 0, e);
  }

  /** When only whitespace follows the prefix, the stripped line is at most
      the prefix and nothing survives the cut. */
  lemma BlankAfterPrefix(prefix: string, item: string)
    requires |prefix| == 3 && !IsSpace(prefix[0]) && AllSpace(item)
    ensures CleanItem(prefix + item) == [] == Strip(item)
  {
    var s := prefix + item;
    var r := Strip(s);
    assert StripStart(s) == 0;
    assert |r| <= 3;
    assert Drop(r, 3) == [];
    assert Strip([]) == [];
  }

  /** With no header anywhere in the text the section is empty. */
  lemma MissingHeaderGivesNothing(text: string, section: Section)
    requires forall i: nat :: !HeaderAt(text, section.Label(), i)
    ensures ExtractList(text, section) == []
  {
    CaptureIsSearchResult(text, section.Label());
  }

  /** After the first header, when no line starts with a `word:` token and the
      text does not end in a newline, nothing terminates the lazy group and the
      section is empty, however many lines follow the header. */
  lemma UnterminatedSectionGivesNothing(text: string, section: Section, i: nat)
    requires HeaderAt(text, section.Label(), i)
    requires forall i': nat :: i' < i ==> !HeaderAt(text, section.Label(), i')
    requires forall j: nat :: i <= j < |text| && text[j] == '\n' ==> !WordColonAt(text, j + 1)
    requires text[|text| - 1] != '\n'
    ensures ExtractList(text, section) == []
  {
    var name := section.Label();
    CaptureIsSearchResult(text, name);
    forall i': nat, j: nat ensures !Matches(text, name, i', j) {
      if HeaderAt(text, name, i') && i' + |name| + 2 <= j < |text| && text[j] == '\n' {
        assert i <= i';
        assert !WordColonAt(text, j + 1);
        assert !EndAt(text, j + 1);
      }
    }
  }

  /** Every entry is the cleaned text of a non-blank line, and there are no
      more entries than lines. */
  ghost predicate EntriesFromLines(lines: seq<string>, items: seq<string>) {
    && |items| <= |lines|
    && forall x :: x in items ==> exists line :: line in lines && !AllSpace(line) && x == CleanItem(line)
  }

  /** Every non-blank line has its cleaned text among the entries. */
  ghost predicate LinesHaveEntries(lines: seq<string>, items: seq<string>) {
    forall line :: line in lines && !AllSpace(line) ==> CleanItem(line) in items
  }

  /** The comprehension's entries are exactly the cleaned non-blank lines. */
  lemma ItemsAreLineEntries(lines: seq<string>)
    ensures EntriesFromLines(lines, Items(lines))
    ensures LinesHaveEntries(lines, Items(lines))
  {
    ItemsFromLines(lines);
    LinesGiveItems(lines);
  }

  lemma {:induction false} ItemsFromLines(lines: seq<string>)
    ensures EntriesFromLines(lines, Items(lines))
  {
    if lines != [] {
      var rest := lines[1..];
      ItemsFromLines(rest);
      assert lines == [lines[0]] + rest;
      ItemsAppend([lines[0]], rest);
      ItemsOfLine(lines[0]);
      forall x | x in Items(lines)
        ensures exists line :: line in lines && !AllSpace(line) && x == CleanItem(line)
      {
        if x in Items(rest) {
          var line :| line in rest && !AllSpace(line) && x == CleanItem(line);
          assert line in lines;
        } else {
          assert lines[0] in lines;
        }
      }
    }
  }

  lemma {:induction false} LinesGiveItems(lines: seq<string>)
    ensures LinesHaveEntries(lines, Items(lines))
  {
    if lines != [] {
      var rest := lines[1..];
      LinesGiveItems(rest);
      assert lines == [lines[0]] + rest;
      ItemsAppend([lines[0]], rest);
      ItemsOfLine(lines[0]);
    }
  }

  /** What `extract_list` returns when the pattern matches: the cleaned
      non-blank lines of the captured block, at most one entry per line. */
  lemma ExtractListEntries(text: string, section: Section)
    requires Capture(text, section.Label()).Some?
    ensures var lines := Split(Capture(text, section.Label()).value, '\n');
            EntriesFromLines(lines, ExtractList(text, section)) && LinesHaveEntries(lines, ExtractList(text, section))
  {
    ItemsAreLineEntries(Split(Capture(text, section.Label()).value, '\n'));
  }

  // ---------------------------------------------------------------------------
  // Truncation for the result page

  /** The four lists handed to the result page, and the echoed region. */
  datatype Recommendation = Recommendation(
    restaurants: seq<string>,
    breakfast: seq<string>,
    dinner: seq<string>,
    workouts: seq<string>,
    region: string)
  {
    function List(section: Section): seq<string> {
      match section
      case Restaurants => restaurants
      case Breakfast => breakfast
      case Dinner => dinner
      case Workouts => workouts
    }
  }

  /** The arguments of the `render_template` call: each section's extracted
      list cut to at most its limit. */
  function Render(text: string, region: string): (r: Recommendation)
    ensures r.restaurants <= ExtractList(text, Restaurants) && |r.restaurants| <= 6
    ensures r.breakfast <= ExtractList(text, Breakfast) && |r.breakfast| <= 6
    ensures r.dinner <= ExtractList(text, Dinner) && |r.dinner| <= 5
    ensures r.workouts <= ExtractList(text, Workouts) && |r.workouts| <= 6
    ensures |r.restaurants| < 6 ==> r.restaurants == ExtractList(text, Restaurants)
    ensures |r.breakfast| < 6 ==> r.breakfast == ExtractList(text, Breakfast)
    ensures |r.dinner| < 5 ==> r.dinner == ExtractList(text, Dinner)
    ensures |r.workouts| < 6 ==> r.workouts == ExtractList(text, Workouts)
    ensures r.region == region
  {
    Recommendation(
      Take(ExtractList(text, Restaurants), 6),
      Take(ExtractList(text, Breakfast), 6),
      Take(ExtractList(text, Dinner), 5),
      Take(ExtractList(text, Workouts), 6),
      region)
  }
}
