/**
 * Card-list formats: `detect_format` picks a parser from a file's extension and first line,
 * each parser's `parse_line` pulls one card name out of a line, and `CardParser.parse` runs the
 * chosen parser over the lines of a file, skipping comments, section headers and a CSV header.
 *
 * Regular expressions are written as searches that follow Python's backtracking order (a greedy
 * repetition tries its longest run first); `.` matches any character except '\n'.
 */
module ScryfallParsing {
  import opened Wrappers
  import opened Text

  /** One parser family per factory class. */
  datatype Format =
    | CardKingdomQuantity   // "4 Lightning Bolt"
    | CardKingdomQuantityX  // "4x Lightning Bolt"
    | CardKingdomPlain      // "Lightning Bolt"
    | ManaBoxExport         // "Lightning Bolt (M11) 146"
    | ManaBoxCollection     // CSV with a header row

  /** What one `parse_line` call gives: a string, Python's `None`, or an exception because the regex did not match. */
  datatype LineResult = Name(text: string) | NoValue | Raises

  /** `parse` appends a result only when it is truthy: a non-empty string. */
  predicate Truthy(r: LineResult) {
    r.Name? && r.text != ""
  }

  // ---------------------------------------------------------------------------------------------
  // Pieces shared by the patterns

  /** `\)\s+` at `j`, followed by `\d+` when `needDigit`: greedy `\s+` stops at the first non-space,
      and a digit can only come there because digits are not whitespace. */
  predicate CloseFollows(l: string, j: nat, needDigit: bool) {
    j + 1 < |l| && l[j] == ')' && IsSpace(l[j + 1])
    && (needDigit ==> SpaceEnd(l, j + 1) < |l| && IsDigit(l[SpaceEnd(l, j + 1)]))
  }

  /** Whether some `j` in `[from, end)` starts `\)\s+` (and `\d+` when `needDigit`). */
  function HasCloseFrom(l: string, from: nat, end: nat, needDigit: bool): (b: bool)
    requires from <= end <= |l|
    decreases end - from
  {
    if from == end then false
    else CloseFollows(l, from, needDigit) || HasCloseFrom(l, from + 1, end, needDigit)
  }

  /** The scan finds a close exactly when one exists in the range. */
  lemma {:induction false} HasCloseFromMatches(l: string, from: nat, end: nat, needDigit: bool)
    requires from <= end <= |l|
    ensures HasCloseFrom(l, from, end, needDigit) <==> exists j :: from <= j < end && CloseFollows(l, j, needDigit)
    decreases end - from
  {
    if from < end {
      HasCloseFromMatches(l, from + 1, end, needDigit);
    }
  }

  // ---------------------------------------------------------------------------------------------
  // detect_format

  /** `re.match(r'^.+\(.*\)\s+\d*', head)`, stated as the regex means it: a non-empty run before '(',
      a run up to ')', then at least one whitespace character (`\d*` may match nothing). */
  ghost predicate MatchesExportHead(h: string) {
    exists c, j :: 1 <= c < j < |h| && h[c] == '(' && (forall k :: 0 <= k < j ==> h[k] != '\n') && CloseFollows(h, j, false)
  }

  /** `re.match(r'^\d+x', head)`. */
  ghost predicate MatchesDigitsX(h: string) {
    exists k :: 1 <= k < |h| && AllDigits(h[..k]) && h[k] == 'x'
  }

  /** `re.match(r'^\d+', head)`. */
  predicate StartsWithDigit(h: string) {
    |h| > 0 && IsDigit(h[0])
  }

  /** Whether some '(' at `c` in `[from, LineEnd(h, 0))` is followed, still on the first line, by `\)\s+`. */
  function HeadOpenFrom(h: string, from: nat): (b: bool)
    requires 1 <= from <= LineEnd(h, 0)
    decreases LineEnd(h, 0) - from
  {
    if from == LineEnd(h, 0) then false
    else (h[from] == '(' && HasCloseFrom(h, from + 1, LineEnd(h, 0), false)) || HeadOpenFrom(h, from + 1)
  }

  /** The scan finds a '(' with a later `\)\s+` on the first line exactly when there is one. */
  lemma {:induction false} HeadOpenFromMatches(h: string, from: nat)
    requires 1 <= from <= LineEnd(h, 0)
    ensures HeadOpenFrom(h, from) <==> exists c, j :: from <= c < j < LineEnd(h, 0) && h[c] == '(' && CloseFollows(h, j, false)
    decreases LineEnd(h, 0) - from
  {
    if from < LineEnd(h, 0) {
      HeadOpenFromMatches(h, from + 1);
      HasCloseFromMatches(h, from + 1, LineEnd(h, 0), false);
    }
  }

  predicate HeadIsExport(h: string) {
    LineEnd(h, 0) >= 1 && HeadOpenFrom(h, 1)
  }

  predicate HeadIsDigitsX(h: string) {
    var d := DigitEnd(h, 0);
    d >= 1 && d < |h| && h[d] == 'x'
  }

  /** The scan for the export pattern agrees with the pattern. */
  lemma HeadIsExportMatches(h: string)
    ensures HeadIsExport(h) <==> MatchesExportHead(h)
  {
    if LineEnd(h, 0) >= 1 {
      HeadOpenFromMatches(h, 1);
    }
    if HeadIsExport(h) {
      var c, j :| 1 <= c < j < LineEnd(h, 0) && h[c] == '(' && CloseFollows(h, j, false);
      assert forall k :: 0 <= k < j ==> h[k] != '\n';
    }
    if MatchesExportHead(h) {
      var c, j :| 1 <= c < j < |h| && h[c] == '(' && (forall k :: 0 <= k < j ==> h[k] != '\n') && CloseFollows(h, j, false);
      assert h[j] == ')';
      assert j < LineEnd(h, 0);
    }
  }

  /** The scan for `^\d+x` agrees with the pattern: greedy `\d+` can only be followed by 'x' at its end. */
  lemma HeadIsDigitsXMatches(h: string)
    ensures HeadIsDigitsX(h) <==> MatchesDigitsX(h)
  {
    var d := DigitEnd(h, 0);
    if HeadIsDigitsX(h) {
      assert AllDigits(h[..d]);
    }
    if MatchesDigitsX(h) {
      var k :| 1 <= k < |h| && AllDigits(h[..k]) && h[k] == 'x';
      assert forall m :: 0 <= m < k ==> IsDigit(h[..k][m]);
      assert d == k;
    }
  }

  /** Classification of the stripped first line, in the source's order of tests. */
  function ClassifyHead(head: string): Format {
    if HeadIsExport(head) then ManaBoxExport
    else if HeadIsDigitsX(head) then CardKingdomQuantityX
    else if StartsWithDigit(head) then CardKingdomQuantity
    else CardKingdomPlain
  }

  /** `detect_format`, given the path's extension and the file's literal first line (as `readline` returns it). */
  function DetectFormat(extension: string, firstLine: string): (f: Format)
    ensures extension == ".csv" <==> f == ManaBoxCollection
  {
    if extension == ".csv" then ManaBoxCollection else ClassifyHead(Strip(firstLine))
  }

  /** The tests on the stripped first line come in priority order: export, then `<digits>x`, then `<digits>`, else plain. */
  lemma DetectFormatPriority(extension: string, firstLine: string)
    requires extension != ".csv"
    ensures var head := Strip(firstLine); var f := DetectFormat(extension, firstLine);
      && (f == ManaBoxExport <==> MatchesExportHead(head))
      && (f == CardKingdomQuantityX <==> !MatchesExportHead(head) && MatchesDigitsX(head))
      && (f == CardKingdomQuantity <==> !MatchesExportHead(head) && !MatchesDigitsX(head) && StartsWithDigit(head))
      && (f == CardKingdomPlain <==> !MatchesExportHead(head) && !MatchesDigitsX(head) && !StartsWithDigit(head))
  {
    HeadIsExportMatches(Strip(firstLine));
    HeadIsDigitsXMatches(Strip(firstLine));
  }

  // ---------------------------------------------------------------------------------------------
  // parse_line of each parser

  /** `^\s*(?P<quantity>\d+)\s+(?P<card>.*)`. Greedy `\s*` must stop at the first digit and greedy `\d+`
      at the first whitespace, so no backtracking changes the match; `.*` runs to the next newline. */
  function QuantityLine(line: string): (r: LineResult)
    ensures !r.NoValue?
    ensures r.Name? ==> '\n' !in r.text && |r.text| < |line|
  {
    var w := SpaceEnd(line, 0);
    var d := DigitEnd(line, w);
    if d == w || d == |line| || !IsSpace(line[d]) then Raises
    else
      var k := SpaceEnd(line, d);
      Name(line[k..LineEnd(line, k)])
  }

  /** `^\s*(?P<quantity>\d+)x\s+(?P<card>.*)`. */
  function QuantityXLine(line: string): (r: LineResult)
    ensures !r.NoValue?
    ensures r.Name? ==> '\n' !in r.text && |r.text| < |line| - 1
  {
    var w := SpaceEnd(line, 0);
    var d := DigitEnd(line, w);
    if d == w || d + 1 >= |line| || line[d] != 'x' || !IsSpace(line[d + 1]) then Raises
    else
      var k := SpaceEnd(line, d + 1);
      Name(line[k..LineEnd(line, k)])
  }

  /** `line.strip()`. */
  function PlainLine(line: string): (r: LineResult)
    ensures r.Name? && IsStripped(r.text) && |r.text| <= |line|
  {
    StripSpec(line);
    Name(Strip(line))
  }

  /** '(' at `c` followed, on the same line, by `\)\s+\d+`. */
  predicate OpenWithClose(l: string, c: nat) {
    c < |l| && l[c] == '(' && HasCloseFrom(l, c + 1, LineEnd(l, c + 1), true)
  }

  /** What `OpenWithClose` scans for, as the pattern states it. */
  lemma OpenWithCloseMatches(l: string, c: nat)
    ensures OpenWithClose(l, c) <==>
      c < |l| && l[c] == '(' && exists j :: c < j < |l| && CloseFollows(l, j, true) && forall k :: c < k < j ==> l[k] != '\n'
  {
    if c < |l| {
      HasCloseFromMatches(l, c + 1, LineEnd(l, c + 1), true);
    }
    if c < |l| && l[c] == '(' && exists j :: c < j < |l| && CloseFollows(l, j, true) && forall k :: c < k < j ==> l[k] != '\n' {
      var j :| c < j < |l| && CloseFollows(l, j, true) && forall k :: c < k < j ==> l[k] != '\n';
      assert j < LineEnd(l, c + 1);
    }
  }

  /** The export pattern `^\s*(?P<card>.+)\((?P<setname>.*)\)\s+(?P<printno>\d+)` can match with
      `\s*` taking `l[..w]` and the card group taking `l[w..c]`. */
  predicate ExportSplit(l: string, w: nat, c: nat) {
    w <= SpaceEnd(l, 0) && w < c < LineEnd(l, w) && OpenWithClose(l, c)
  }

  /** Greedy `(?P<card>.+)` from `w`: the card ends at the last '(' before `c` that is followed by `\)\s+\d+`. */
  function ExportSearchCard(l: string, w: nat, c: nat): (r: Option<nat>)
    requires w < c <= |l|
    ensures r.Some? ==> w < r.value < c
    decreases c
  {
    if c == w + 1 then None
    else if OpenWithClose(l, c - 1) then Some(c - 1)
    else ExportSearchCard(l, w, c - 1)
  }

  /** The card search finds the last usable '(' below `c`, or reports that there is none. */
  lemma {:induction false} ExportSearchCardIsLast(l: string, w: nat, c: nat)
    requires w < c <= |l|
    ensures ExportSearchCard(l, w, c).Some? ==> OpenWithClose(l, ExportSearchCard(l, w, c).value)
    ensures ExportSearchCard(l, w, c).Some? ==>
      forall c': nat :: ExportSearchCard(l, w, c).value < c' < c ==> !OpenWithClose(l, c')
    ensures ExportSearchCard(l, w, c).None? ==> forall c': nat :: w < c' < c ==> !OpenWithClose(l, c')
    decreases c
  {
    if c > w + 1 && !OpenWithClose(l, c - 1) {
      ExportSearchCardIsLast(l, w, c - 1);
    }
  }

  /** The card the pattern takes after `w` characters of leading whitespace, if any. */
  function CardAt(l: string, w: nat): (r: Option<nat>)
    ensures r.Some? ==> w < r.value < |l|
  {
    if w <= SpaceEnd(l, 0) && w < LineEnd(l, w) then ExportSearchCard(l, w, LineEnd(l, w)) else None
  }

  /** `CardAt` for one line, as the function the backtracking search takes. */
  function Cards(l: string): nat -> Option<nat> {
    w => CardAt(l, w)
  }

  /** For one amount `w` of leading whitespace, the card search finds the longest card that can match. */
  lemma CardAtSplits(l: string, w: nat)
    ensures CardAt(l, w).Some? ==> ExportSplit(l, w, CardAt(l, w).value)
    ensures forall c': nat :: ExportSplit(l, w, c') ==> CardAt(l, w).Some? && c' <= CardAt(l, w).value
  {
    if w <= SpaceEnd(l, 0) && w < LineEnd(l, w) {
      ExportSearchCardIsLast(l, w, LineEnd(l, w));
    }
  }

  /** Backtracking over a greedy prefix: try `w`, then `w - 1`, and so on down to 0, and take the first
      position at which `card` finds something. */
  function FirstFromTop(card: nat -> Option<nat>, w: nat): (r: Option<(nat, nat)>)
    ensures r.Some? ==> r.value.0 <= w && card(r.value.0) == Some(r.value.1)
    decreases w
  {
    if card(w).Some? then Some((w, card(w).value))
    else if w == 0 then None
    else FirstFromTop(card, w - 1)
  }

  /** Nothing above the position the search stops at has a card; when it finds none, nothing has. */
  lemma {:induction false} FirstFromTopIsFirst(card: nat -> Option<nat>, w: nat)
    ensures FirstFromTop(card, w).Some? ==> forall w': nat :: FirstFromTop(card, w).value.0 < w' <= w ==> card(w').None?
    ensures FirstFromTop(card, w).None? ==> forall w': nat :: w' <= w ==> card(w').None?
    decreases w
  {
    if card(w).None? && w > 0 {
      FirstFromTopIsFirst(card, w - 1);
    }
  }

  /** Greedy `^\s*`: the card search after the longest whitespace prefix first, then after shorter ones. */
  function ExportSearch(l: string): (r: Option<(nat, nat)>)
    ensures r.Some? ==> r.value.0 <= SpaceEnd(l, 0) && r.value.0 < r.value.1 < |l|
  {
    FirstFromTop(Cards(l), SpaceEnd(l, 0))
  }

  /** `ManaBoxExportFormatParser.parse_line`: the card group of the first match, or an exception. */
  function ExportLine(l: string): (r: LineResult)
    ensures !r.NoValue?
    ensures r.Name? ==> r.text != [] && |r.text| < |l|
  {
    match ExportSearch(l)
    case Some((w, c)) => Name(l[w..c])
    case None => Raises
  }

  /** The export parser returns the card group of the match Python's backtracking finds first: the longest
      leading whitespace, then the longest card; it raises exactly when the pattern cannot match. */
  lemma ExportLineIsFirstMatch(l: string)
    ensures ExportLine(l) == Raises <==> forall w: nat, c: nat :: !ExportSplit(l, w, c)
    ensures ExportSearch(l).Some? ==> var (w, c) := ExportSearch(l).value;
      && ExportSplit(l, w, c) && ExportLine(l) == Name(l[w..c])
      && (forall w': nat, c': nat :: ExportSplit(l, w', c') ==> w' < w || (w' == w && c' <= c))
  {
    var e := SpaceEnd(l, 0);
    FirstFromTopIsFirst(Cards(l), e);
    match ExportSearch(l)
    case None =>
      forall w: nat, c: nat ensures !ExportSplit(l, w, c) {
        CardAtSplits(l, w);
        assert w <= e ==> Cards(l)(w) == CardAt(l, w);
      }
    case Some((w0, c0)) =>
      CardAtSplits(l, w0);
      assert Cards(l)(w0) == CardAt(l, w0);
      forall w': nat, c': nat | ExportSplit(l, w', c') ensures w' < w0 || (w' == w0 && c' <= c0) {
        CardAtSplits(l, w');
        assert Cards(l)(w') == CardAt(l, w');
      }
  }

  /** `ManaBoxCollectionFormatParser.parse_line` on an unquoted line: the first CSV field of the first
      row; an empty line has no row, so the loop body never runs and the method returns `None`. */
  function CollectionLine(line: string): (r: LineResult)
    ensures r.NoValue? <==> line == []
    ensures r.Name? ==> ',' !in r.text && |r.text| <= |line| && r.text == line[..|r.text|]
  {
    if line == [] then NoValue else Name(line[..IndexOf(line, ',', 0)])
  }

  /** The `parse_line` of the parser class for format `f`. */
  function ParseLine(f: Format, line: string): LineResult {
    match f
    case CardKingdomQuantity => QuantityLine(line)
    case CardKingdomQuantityX => QuantityXLine(line)
    case CardKingdomPlain => PlainLine(line)
    case ManaBoxExport => ExportLine(line)
    case ManaBoxCollection => CollectionLine(line)
  }

  /** The bare-quantity parser in terms of where the count and the whitespace after it end. */
  lemma QuantityLineAt(l: string, d: nat, k: nat)
    requires 0 < d < |l| && SpaceEnd(l, 0) == 0 && DigitEnd(l, 0) == d && IsSpace(l[d]) && SpaceEnd(l, d) == k
    ensures QuantityLine(l) == Name(l[k..LineEnd(l, k)])
  {
  }

  /** The quantity-x parser in terms of where the count and the whitespace after its 'x' end. */
  lemma QuantityXLineAt(l: string, d: nat, k: nat)
    requires 0 < d && d + 1 < |l| && SpaceEnd(l, 0) == 0 && DigitEnd(l, 0) == d && l[d] == 'x' && IsSpace(l[d + 1])
    requires SpaceEnd(l, d + 1) == k
    ensures QuantityXLine(l) == Name(l[k..LineEnd(l, k)])
  {
  }

  /** In `q + gap + name`, the digit run `q` ends where `gap` starts. */
  lemma DigitsThenGap(q: string, gap: string, name: string)
    requires q != [] && AllDigits(q) && gap != [] && !IsDigit(gap[0])
    ensures var l := q + gap + name;
      SpaceEnd(l, 0) == 0 && DigitEnd(l, 0) == |q| && l[|q|] == gap[0]
  {
    var l := q + gap + name;
    assert forall m :: 0 <= m < |q| ==> l[m] == q[m];
    assert l[|q|] == gap[0];
    DigitEndAt(l, 0, |q|);
  }

  /** In `q + "x" + gap + name`, the digit run `q` ends at the 'x'. */
  lemma DigitsThenX(q: string, gap: string, name: string)
    requires q != [] && AllDigits(q) && gap != []
    ensures var l := q + "x" + gap + name;
      SpaceEnd(l, 0) == 0 && DigitEnd(l, 0) == |q| && l[|q|] == 'x' && l[|q| + 1] == gap[0]
  {
    var l := q + "x" + gap + name;
    assert forall m :: 0 <= m < |q| ==> l[m] == q[m];
    assert l[|q|] == 'x' && l[|q| + 1] == gap[0];
    DigitEndAt(l, 0, |q|);
  }

  /** A run of whitespace after `pre` ends where `name` starts. */
  lemma SpacesThen(pre: string, gap: string, name: string)
    requires AllSpace(gap) && (name == [] || !IsSpace(name[0]))
    ensures SpaceEnd(pre + gap + name, |pre|) == |pre| + |gap|
  {
    var l := pre + gap + name;
    assert forall m :: |pre| <= m < |pre| + |gap| ==> l[m] == gap[m - |pre|];
    assert |pre| + |gap| < |l| ==> l[|pre| + |gap|] == name[0];
    SpaceEndAt(l, |pre|, |pre| + |gap|);
  }

  /** `.*` after `pre` takes all of a newline-free `name`. */
  lemma RestOfLine(pre: string, name: string)
    requires NoNewline(name)
    ensures LineEnd(pre + name, |pre|) == |pre + name| && (pre + name)[|pre|..] == name
  {
    var l := pre + name;
    assert forall m :: |pre| <= m < |l| ==> l[m] == name[m - |pre|];
    LineEndNoNewline(l, |pre|);
  }

  /** "4 Lightning Bolt": the bare-quantity parser returns the text after the count and its whitespace. */
  lemma QuantityLineRoundTrip(q: string, gap: string, name: string)
    requires q != [] && AllDigits(q) && gap != [] && AllSpace(gap)
    requires NoNewline(name) && (name == [] || !IsSpace(name[0]))
    ensures QuantityLine(q + gap + name) == Name(name)
  {
    DigitsThenGap(q, gap, name);
    SpacesThen(q, gap, name);
    RestOfLine(q + gap, name);
    QuantityLineAt(q + gap + name, |q|, |q| + |gap|);
  }

  /** "4x Lightning Bolt": the quantity-x parser returns the text after `<count>x` and its whitespace. */
  lemma QuantityXLineRoundTrip(q: string, gap: string, name: string)
    requires q != [] && AllDigits(q) && gap != [] && AllSpace(gap)
    requires NoNewline(name) && (name == [] || !IsSpace(name[0]))
    ensures QuantityXLine(q + "x" + gap + name) == Name(name)
  {
    QuantityXLayout(q, gap, name);
    QuantityXLineAt(q + "x" + gap + name, |q|, |q| + 1 + |gap|);
  }

  /** Where the pieces of `<count>x<whitespace><name>` start and end. */
  lemma QuantityXLayout(q: string, gap: string, name: string)
    requires q != [] && AllDigits(q) && gap != [] && AllSpace(gap)
    requires NoNewline(name) && (name == [] || !IsSpace(name[0]))
    ensures var l := q + "x" + gap + name; var k := |q| + 1 + |gap|;
      && SpaceEnd(l, 0) == 0 && DigitEnd(l, 0) == |q| && l[|q|] == 'x' && IsSpace(l[|q| + 1])
      && SpaceEnd(l, |q| + 1) == k && LineEnd(l, k) == |l| && l[k..LineEnd(l, k)] == name
  {
    DigitsThenX(q, gap, name);
    SpacesThen(q + "x", gap, name);
    RestOfLine(q + "x" + gap, name);
  }

  /** The greatest split in backtracking order determines the card the export parser returns. */
  lemma ExportLineFromGreatestSplit(l: string, w: nat, c: nat)
    requires ExportSplit(l, w, c)
    requires forall w': nat, c': nat :: ExportSplit(l, w', c') ==> w' < w || (w' == w && c' <= c)
    ensures ExportLine(l) == Name(l[w..c])
  {
    ExportLineIsFirstMatch(l);
    var (w0, c0) := ExportSearch(l).value;
    assert ExportLine(l) == Name(l[w0..c0]);
    assert w0 == w && c0 == c;
  }

  /** Where each piece of `name + "(" + setName + ") " + tail` sits. */
  lemma ExportShape(name: string, setName: string, tail: string)
    ensures var l := name + "(" + setName + ") " + tail; var c := |name|; var j := |name| + 1 + |setName|;
      && |l| == j + 2 + |tail| && l[c] == '(' && l[j] == ')' && l[j + 1] == ' '
      && (forall k :: 0 <= k < c ==> l[k] == name[k])
      && (forall k :: c < k < j ==> l[k] == setName[k - c - 1])
      && (forall k :: j + 2 <= k < |l| ==> l[k] == tail[k - j - 2])
  {
  }

  /** The pieces of a rendered export line, position by position. */
  lemma ExportLineLayout(name: string, setName: string, number: string)
    requires name != [] && NoNewline(name) && !IsSpace(name[0])
    requires NoNewline(setName) && '(' !in setName && ')' !in setName
    requires number != [] && AllDigits(number)
    ensures var l := name + "(" + setName + ") " + number;
      && ExportSplit(l, 0, |name|)
      && forall w': nat, c': nat :: ExportSplit(l, w', c') ==> w' == 0 && c' <= |name|
  {
    var l := name + "(" + setName + ") " + number;
    var c := |name|;
    var j := |name| + 1 + |setName|;
    ExportShape(name, setName, number);
    assert NoNewline(l);
    assert SpaceEnd(l, 0) == 0;
    SpaceEndAt(l, j + 1, j + 2);
    assert CloseFollows(l, j, true);
    LineEndNoNewline(l, 0);
    OpenWithCloseMatches(l, c);
    assert ExportSplit(l, 0, c);
    forall k | c < k < |l| ensures l[k] != '(' {
      if k < j {
        assert setName[k - c - 1] in setName;
      }
    }
  }

  /** "Name (SET) 146": the export parser returns everything before the '(' of the set, trailing space included. */
  lemma ExportLineRoundTrip(name: string, setName: string, number: string)
    requires name != [] && NoNewline(name) && !IsSpace(name[0])
    requires NoNewline(setName) && '(' !in setName && ')' !in setName
    requires number != [] && AllDigits(number)
    ensures ExportLine(name + "(" + setName + ") " + number) == Name(name)
  {
    var l := name + "(" + setName + ") " + number;
    ExportLineLayout(name, setName, number);
    ExportLineFromGreatestSplit(l, 0, |name|);
    assert l[..|name|] == name;
  }

  // ---------------------------------------------------------------------------------------------
  // CardParser.parse

  /** `re.match(r'^(\/+|#)(.*)', line)`: the raw line starts with '/' or '#'. */
  predicate IsCommentLine(line: string) {
    |line| > 0 && (line[0] == '/' || line[0] == '#')
  }

  /** `re.match(r'^\[.*\]', line)`: '[' first, and a later ']' with no newline in between. */
  predicate IsSectionHeader(line: string) {
    |line| > 0 && line[0] == '[' && IndexOf(line, ']', 1) < LineEnd(line, 1)
  }

  /** The section-header scan agrees with the pattern. */
  lemma IsSectionHeaderMatches(line: string)
    ensures IsSectionHeader(line) <==>
      |line| > 0 && line[0] == '[' && exists j :: 1 <= j < |line| && line[j] == ']' && forall k :: 1 <= k < j ==> line[k] != '\n'
  {
    if |line| > 0 && line[0] == '[' && exists j :: 1 <= j < |line| && line[j] == ']' && forall k :: 1 <= k < j ==> line[k] != '\n' {
      var j :| 1 <= j < |line| && line[j] == ']' && forall k :: 1 <= k < j ==> line[k] != '\n';
      assert IndexOf(line, ']', 1) <= j;
    }
  }

  /** The lines `parse` passes over without calling `parse_line`. */
  predicate Skipped(line: string) {
    line == [] || IsCommentLine(line) || IsSectionHeader(line)
  }

  /** The exception `match.group` raises when a parser's regex did not match the stripped line. */
  datatype ParseError = LineDidNotMatch(line: string)

  /** Prefix the cards of earlier lines to the outcome of the later ones. */
  function Prepend(cards: seq<string>, rest: Result<seq<string>, ParseError>): Result<seq<string>, ParseError> {
    if rest.Failure? then rest else Success(cards + rest.value)
  }

  /** The `parse_line` method `CardParser.parse` dispatches to, for a parser of format `f`. */
  function LineParser(f: Format): string -> LineResult {
    line => ParseLine(f, line)
  }

  /** The loop of `CardParser.parse` over `lines` (after any skipped CSV header), calling the
      parser's own `parseLine` on each stripped line. */
  function Collect(parseLine: string -> LineResult, lines: seq<string>): (r: Result<seq<string>, ParseError>)
    ensures r.Success? ==> |r.value| <= |lines|
    decreases |lines|
  {
    if lines == [] then Success([])
    else if Skipped(lines[0]) then Collect(parseLine, lines[1..])
    else
      var c := parseLine(Strip(lines[0]));
      if c.Raises? then Failure(LineDidNotMatch(lines[0]))
      else Prepend(if Truthy(c) then [c.text] else [], Collect(parseLine, lines[1..]))
  }

  /** `parse` returns at most one card per line, never an empty name, and fails only on a line that
      reaches `parse_line` and does not match. */
  lemma {:induction false} CollectBounds(parseLine: string -> LineResult, lines: seq<string>)
    ensures var r := Collect(parseLine, lines);
      && (r.Success? ==> |r.value| <= |lines| && forall k :: 0 <= k < |r.value| ==> r.value[k] != "")
      && (r.Failure? ==> exists i :: (0 <= i < |lines| && r.error == LineDidNotMatch(lines[i])
            && !Skipped(lines[i]) && parseLine(Strip(lines[i])).Raises?))
    decreases |lines|
  {
    if lines != [] {
      CollectBounds(parseLine, lines[1..]);
      var r := Collect(parseLine, lines);
      if r.Failure? && Collect(parseLine, lines[1..]).Failure? && r == Collect(parseLine, lines[1..]) {
        var i :| 0 <= i < |lines| - 1 && r.error == LineDidNotMatch(lines[1..][i])
          && !Skipped(lines[1..][i]) && parseLine(Strip(lines[1..][i])).Raises?;
        assert lines[1..][i] == lines[i + 1];
      }
    }
  }

  /** `CardParser.parse` on a file with this extension and these lines (as iterating the file yields them). */
  function ParseSpec(extension: string, parseLine: string -> LineResult, lines: seq<string>): (r: Result<seq<string>, ParseError>)
    ensures r.Success? ==> |r.value| <= |lines|
    ensures r.Success? && extension == ".csv" && lines != [] ==> |r.value| < |lines|
  {
    Collect(parseLine, if extension == ".csv" && lines != [] then lines[1..] else lines)
  }

  /** One step of `Collect` at line `i`, with the earlier cards already gathered. */
  lemma CollectStep(parseLine: string -> LineResult, lines: seq<string>, i: nat, cards: seq<string>)
    requires i < |lines|
    ensures Skipped(lines[i]) ==> Prepend(cards, Collect(parseLine, lines[i..])) == Prepend(cards, Collect(parseLine, lines[i + 1..]))
    ensures !Skipped(lines[i]) && parseLine(Strip(lines[i])).Raises? ==>
      Prepend(cards, Collect(parseLine, lines[i..])) == Failure(LineDidNotMatch(lines[i]))
    ensures !Skipped(lines[i]) && !parseLine(Strip(lines[i])).Raises? ==>
      var c := parseLine(Strip(lines[i]));
      Prepend(cards, Collect(parseLine, lines[i..])) == Prepend(cards + (if Truthy(c) then [c.text] else []), Collect(parseLine, lines[i + 1..]))
  {
    assert lines[i..][0] == lines[i] && lines[i..][1..] == lines[i + 1..];
    var c := parseLine(Strip(lines[i]));
    if !Skipped(lines[i]) && !c.Raises? {
      PrependPrepend(cards, if Truthy(c) then [c.text] else [], Collect(parseLine, lines[i + 1..]));
    }
  }

  method Parse(extension: string, parseLine: string -> LineResult, lines: seq<string>) returns (r: Result<seq<string>, ParseError>)
    ensures r == ParseSpec(extension, parseLine, lines)
  {
    var cards: seq<string> := [];
    var skipFirstLine := extension == ".csv";
    var i := 0;
    assert lines[0..] == lines;
    PrependEmpty(Collect(parseLine, lines));
    while i < |lines|
      invariant 0 <= i <= |lines|
      invariant skipFirstLine ==> i == 0 && cards == [] && extension == ".csv"
      invariant !skipFirstLine ==> Prepend(cards, Collect(parseLine, lines[i..])) == ParseSpec(extension, parseLine, lines)
    {
      var line := lines[i];
      if skipFirstLine {
        skipFirstLine := false;
        i := i + 1;
        PrependEmpty(Collect(parseLine, lines[1..]));
        continue;
      }
      CollectStep(parseLine, lines, i, cards);
      i := i + 1;
      if line == [] || IsCommentLine(line) {
        continue;
      }
      if IsSectionHeader(line) {
        continue;
      }
      var c := parseLine(Strip(line));
      if c.Raises? {
        return Failure(LineDidNotMatch(line));
      }
      if Truthy(c) {
        cards := cards + [c.text];
      } else {
        assert cards + [] == cards;
      }
    }
    assert lines[i..] == [];
    assert cards + [] == cards;
    return Success(cards);
  }

  lemma PrependEmpty(rest: Result<seq<string>, ParseError>)
    ensures Prepend([], rest) == rest
  {
    if rest.Success? {
      assert [] + rest.value == rest.value;
    }
  }

  lemma PrependPrepend(a: seq<string>, b: seq<string>, rest: Result<seq<string>, ParseError>)
    ensures Prepend(a, Prepend(b, rest)) == Prepend(a + b, rest)
  {
    if rest.Success? {
      assert a + (b + rest.value) == (a + b) + rest.value;
    }
  }

  /** Parsing a file in two pieces and concatenating equals parsing it whole: lines keep their
      order, and the first line that raises ends the parse. */
  lemma {:induction false} CollectAppend(parseLine: string -> LineResult, a: seq<string>, b: seq<string>)
    ensures Collect(parseLine, a + b) ==
      (if Collect(parseLine, a).Failure? then Collect(parseLine, a) else Prepend(Collect(parseLine, a).value, Collect(parseLine, b)))
    decreases |a|
  {
    if a == [] {
      assert a + b == b;
      if Collect(parseLine, b).Success? { assert [] + Collect(parseLine, b).value == Collect(parseLine, b).value; }
    } else {
      assert (a + b)[0] == a[0] && (a + b)[1..] == a[1..] + b;
      CollectAppend(parseLine, a[1..], b);
      if !Skipped(a[0]) && !parseLine(Strip(a[0])).Raises? {
        var c := parseLine(Strip(a[0]));
        PrependPrepend(if Truthy(c) then [c.text] else [], if Collect(parseLine, a[1..]).Failure? then [] else Collect(parseLine, a[1..]).value, Collect(parseLine, b));
      }
    }
  }

  /** One line on its own: skipped lines give nothing, others give their truthy result or raise. */
  lemma CollectOneLine(parseLine: string -> LineResult, line: string)
    ensures Skipped(line) ==> Collect(parseLine, [line]) == Success([])
    ensures !Skipped(line) && parseLine(Strip(line)).Raises? ==> Collect(parseLine, [line]) == Failure(LineDidNotMatch(line))
    ensures !Skipped(line) && Truthy(parseLine(Strip(line))) ==> Collect(parseLine, [line]) == Success([parseLine(Strip(line)).text])
    ensures !Skipped(line) && parseLine(Strip(line)) in {NoValue, Name("")} ==> Collect(parseLine, [line]) == Success([])
  {
    assert [line][1..] == [];
    assert forall s: seq<string> :: s + [] == s;
  }

  /** A `.csv` file always loses its first line, whatever it holds. */
  lemma CsvHeaderDropped(parseLine: string -> LineResult, header: string, rest: seq<string>)
    ensures ParseSpec(".csv", parseLine, [header] + rest) == Collect(parseLine, rest)
  {
    assert ([header] + rest)[1..] == rest;
  }

  /** A blank line of a file ("\n") is not an empty string, so it reaches `parse_line`: the quantity
      parsers raise on it, the plain parser strips it to "" and drops it. */
  lemma BlankLineRaises()
    ensures Collect(LineParser(CardKingdomQuantity), ["\n"]) == Failure(LineDidNotMatch("\n"))
    ensures Collect(LineParser(CardKingdomQuantityX), ["\n"]) == Failure(LineDidNotMatch("\n"))
    ensures Collect(LineParser(CardKingdomPlain), ["\n"]) == Success([])
  {
    StripSpec("\n");
    CollectOneLine(LineParser(CardKingdomQuantity), "\n");
    CollectOneLine(LineParser(CardKingdomQuantityX), "\n");
    CollectOneLine(LineParser(CardKingdomPlain), "\n");
  }

  /** A blank or whitespace-only line: what the "Empty line" test of `parse` evidently means to skip. */
  predicate IsBlank(line: string) {
    AllSpace(line)
  }

  /** `parse` with the empty-line test applied to the stripped line, as its comment intends. */
  function CollectSkippingBlank(parseLine: string -> LineResult, lines: seq<string>): (r: Result<seq<string>, ParseError>)
    ensures r.Success? ==> forall k :: 0 <= k < |r.value| ==> r.value[k] != ""
    decreases |lines|
  {
    if lines == [] then Success([])
    else if IsBlank(lines[0]) || Skipped(lines[0]) then CollectSkippingBlank(parseLine, lines[1..])
    else
      var c := parseLine(Strip(lines[0]));
      if c.Raises? then Failure(LineDidNotMatch(lines[0]))
      else Prepend(if Truthy(c) then [c.text] else [], CollectSkippingBlank(parseLine, lines[1..]))
  }

  /** The corrected loop treats a line the same whatever follows it. */
  lemma CorrectedCons(parseLine: string -> LineResult, line: string, a: seq<string>, b: seq<string>)
    requires CollectSkippingBlank(parseLine, a) == CollectSkippingBlank(parseLine, b)
    ensures CollectSkippingBlank(parseLine, [line] + a) == CollectSkippingBlank(parseLine, [line] + b)
  {
    assert ([line] + a)[0] == line && ([line] + a)[1..] == a;
    assert ([line] + b)[0] == line && ([line] + b)[1..] == b;
  }

  /** The corrected loop ignores a blank line wherever it is inserted. */
  lemma {:induction false} CorrectedIgnoresBlankLine(parseLine: string -> LineResult, lines: seq<string>, k: nat, blank: string)
    requires IsBlank(blank) && k <= |lines|
    ensures CollectSkippingBlank(parseLine, lines[..k] + [blank] + lines[k..]) == CollectSkippingBlank(parseLine, lines)
    decreases k
  {
    var s := lines[..k] + [blank] + lines[k..];
    if k == 0 {
      assert s[0] == blank && s[1..] == lines;
    } else {
      var rest := lines[1..];
      var t := rest[..k - 1] + [blank] + rest[k - 1..];
      assert s == [lines[0]] + t;
      assert lines == [lines[0]] + rest;
      CorrectedIgnoresBlankLine(parseLine, rest, k - 1, blank);
      CorrectedCons(parseLine, lines[0], t, rest);
    }
  }

  /** On a file without blank lines the corrected loop and `parse` agree. */
  lemma {:induction false} CorrectedAgreesWithoutBlankLines(parseLine: string -> LineResult, lines: seq<string>)
    requires forall k :: 0 <= k < |lines| ==> !IsBlank(lines[k])
    ensures CollectSkippingBlank(parseLine, lines) == Collect(parseLine, lines)
    decreases |lines|
  {
    if lines != [] {
      assert forall k :: 0 <= k < |lines| - 1 ==> lines[1..][k] == lines[k + 1];
      CorrectedAgreesWithoutBlankLines(parseLine, lines[1..]);
    }
  }

  // ---------------------------------------------------------------------------------------------
  // What detection makes of typical first lines

  /** Stripping a first line that is already stripped apart from its line ending. */
  lemma StripLineEnding(h: string, eol: string)
    requires IsStripped(h) && AllSpace(eol)
    ensures Strip(h + eol) == h
  {
    StripPadded([], h, eol);
    assert [] + h + eol == h + eol;
  }

  /** A head without '(' never matches the export pattern. */
  lemma NoOpenNotExport(h: string)
    requires forall k :: 0 <= k < |h| ==> h[k] != '('
    ensures !HeadIsExport(h)
  {
    HeadIsExportMatches(h);
  }

  /** "4x Lightning Bolt": a count, 'x', whitespace and a name without '(' make a quantity-x list. */
  lemma DetectQuantityX(extension: string, q: string, gap: string, name: string, eol: string)
    requires extension != ".csv"
    requires q != [] && AllDigits(q)
    requires gap != [] && AllSpace(gap) && name != [] && IsStripped(name) && '(' !in name && AllSpace(eol)
    ensures DetectFormat(extension, q + "x" + gap + name + eol) == CardKingdomQuantityX
  {
    var h := q + "x" + gap + name;
    assert forall k :: 0 <= k < |q| ==> h[k] == q[k];
    assert h[|q|] == 'x';
    assert forall k :: |q| + 1 <= k < |q| + 1 + |gap| ==> h[k] == gap[k - |q| - 1];
    assert forall k :: |q| + 1 + |gap| <= k < |h| ==> h[k] == name[k - |q| - 1 - |gap|];
    assert h[|h| - 1] == name[|name| - 1];
    StripLineEnding(h, eol);
    assert h + eol == q + "x" + gap + name + eol;
    forall k | 0 <= k < |h| ensures h[k] != '(' {
      if k >= |q| + 1 + |gap| {
        assert name[k - |q| - 1 - |gap|] in name;
      }
    }
    NoOpenNotExport(h);
    DigitEndAt(h, 0, |q|);
  }

  /** "4 Lightning Bolt": a count, whitespace and a name without '(' make a bare-quantity list. */
  lemma DetectQuantity(extension: string, q: string, gap: string, name: string, eol: string)
    requires extension != ".csv"
    requires q != [] && AllDigits(q)
    requires gap != [] && AllSpace(gap) && name != [] && IsStripped(name) && '(' !in name && AllSpace(eol)
    ensures DetectFormat(extension, q + gap + name + eol) == CardKingdomQuantity
  {
    var h := q + gap + name;
    assert forall k :: 0 <= k < |q| ==> h[k] == q[k];
    assert forall k :: |q| <= k < |q| + |gap| ==> h[k] == gap[k - |q|];
    assert forall k :: |q| + |gap| <= k < |h| ==> h[k] == name[k - |q| - |gap|];
    assert h[|h| - 1] == name[|name| - 1];
    StripLineEnding(h, eol);
    assert h + eol == q + gap + name + eol;
    forall k | 0 <= k < |h| ensures h[k] != '(' {
      if k >= |q| + |gap| {
        assert name[k - |q| - |gap|] in name;
      }
    }
    NoOpenNotExport(h);
    assert h[|q|] == gap[0] && !IsDigit(h[|q|]);
    DigitEndAt(h, 0, |q|);
  }

  /** "Name (SET) 123": a '(' after the first character with `)` and whitespace later on the line makes the
      file an export list, whatever follows the whitespace. */
  lemma DetectExport(extension: string, name: string, setName: string, tail: string, eol: string)
    requires extension != ".csv"
    requires name != [] && NoNewline(name) && !IsSpace(name[0]) && NoNewline(setName)
    requires tail != [] && !IsSpace(tail[|tail| - 1]) && AllSpace(eol)
    ensures DetectFormat(extension, name + "(" + setName + ") " + tail + eol) == ManaBoxExport
  {
    var h := name + "(" + setName + ") " + tail;
    var c := |name|;
    var j := |name| + 1 + |setName|;
    ExportShape(name, setName, tail);
    assert h[|h| - 1] == tail[|tail| - 1];
    StripLineEnding(h, eol);
    assert forall k :: 0 <= k < j ==> h[k] != '\n';
    assert CloseFollows(h, j, false);
    HeadIsExportMatches(h);
  }

  /** "Lightning Bolt (M11)": without whitespace after ')' the export pattern fails, so a name that does not
      start with a digit makes a plain list. */
  lemma DetectPlainWithoutNumber(extension: string, name: string, setName: string, eol: string)
    requires extension != ".csv"
    requires name != [] && !IsSpace(name[0]) && !IsDigit(name[0]) && ')' !in name && ')' !in setName && AllSpace(eol)
    ensures DetectFormat(extension, name + "(" + setName + ")" + eol) == CardKingdomPlain
  {
    var h := name + "(" + setName + ")";
    assert h[0] == name[0] && h[|h| - 1] == ')';
    StripLineEnding(h, eol);
    forall j | 0 <= j < |h| ensures !CloseFollows(h, j, false) {
      if j < |name| {
        assert h[j] == name[j] && name[j] in name;
      } else if |name| < j < |h| - 1 {
        assert h[j] == setName[j - |name| - 1] && setName[j - |name| - 1] in setName;
      }
    }
    HeadIsExportMatches(h);
    DigitEndAt(h, 0, 0);
  }

  /** A blank first line (the literal line, even though `parse` would skip or drop it) makes a plain list. */
  lemma DetectBlankFirstLine(extension: string, firstLine: string)
    requires extension != ".csv" && AllSpace(firstLine)
    ensures DetectFormat(extension, firstLine) == CardKingdomPlain
  {
    StripSpec(firstLine);
    NoOpenNotExport([]);
  }

  /** Any stripped first line without '(' that does not start with a digit, a comment such as "# 4x Bolt"
      included, makes a plain list. */
  lemma DetectPlain(extension: string, head: string, eol: string)
    requires extension != ".csv"
    requires head != [] && IsStripped(head) && !IsDigit(head[0]) && '(' !in head && AllSpace(eol)
    ensures DetectFormat(extension, head + eol) == CardKingdomPlain
  {
    StripLineEnding(head, eol);
    NoOpenNotExport(head);
    DigitEndAt(head, 0, 0);
  }

  /** "Name (SET) text": whitespace after ')' is enough for detection, but the export parser also needs a
      collector number there, so such a file is detected as an export list and then fails on that line. */
  lemma ExportDetectedButUnparsable(extension: string, name: string, setName: string, text: string, eol: string)
    requires extension != ".csv"
    requires name != [] && NoNewline(name) && !IsSpace(name[0]) && ')' !in name
    requires NoNewline(setName) && ')' !in setName
    requires text != [] && IsStripped(text) && !IsDigit(text[0]) && ')' !in text && AllSpace(eol)
    ensures DetectFormat(extension, name + "(" + setName + ") " + text + eol) == ManaBoxExport
    ensures ParseLine(ManaBoxExport, name + "(" + setName + ") " + text) == Raises
  {
    var h := name + "(" + setName + ") " + text;
    ExportShape(name, setName, text);
    DetectExport(extension, name, setName, text, eol);
    NoCloseBeforeDigit(h, name, setName, text);
    NoDigitCloseRaises(h);
  }

  /** In "Name (SET) text" with no digit after the space, no ')' is followed by whitespace and a digit. */
  lemma NoCloseBeforeDigit(h: string, name: string, setName: string, text: string)
    requires h == name + "(" + setName + ") " + text
    requires NoNewline(name) && ')' !in name && NoNewline(setName) && ')' !in setName
    requires text != [] && !IsDigit(text[0]) && !IsSpace(text[0]) && ')' !in text
    ensures forall k :: 0 <= k < |h| ==> !CloseFollows(h, k, true)
  {
    var c := |name|;
    var j := |name| + 1 + |setName|;
    ExportShape(name, setName, text);
    forall k | 0 <= k < |h| ensures !CloseFollows(h, k, true) {
      if k < c {
        assert name[k] in name;
      } else if c < k < j {
        assert setName[k - c - 1] in setName;
      } else if k == j {
        assert h[j + 2] == text[0];
        SpaceEndAt(h, j + 1, j + 2);
      } else if k > j + 1 {
        assert text[k - j - 2] in text;
      }
    }
  }

  /** Without any `\)\s+\d+` in the line the export pattern cannot match, so `parse_line` raises. */
  lemma NoDigitCloseRaises(l: string)
    requires forall k :: 0 <= k < |l| ==> !CloseFollows(l, k, true)
    ensures ParseLine(ManaBoxExport, l) == Raises
  {
    forall w: nat, c: nat ensures !ExportSplit(l, w, c) {
      OpenWithCloseMatches(l, c);
    }
    ExportLineIsFirstMatch(l);
  }
}
