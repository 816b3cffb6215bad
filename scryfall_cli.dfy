/**
 * The `scryfall` command line: reading one requested card from a line of text, the file names of
 * downloaded images, the download loop and the format of the listing.
 */
module ScryfallCli {
  import opened Wrappers
  import opened Text
  import opened RequestGrammar
  import opened ScryfallCache
  import opened PosixPath

  /** A requested card; the fields not given in the request keep their defaults. */
  datatype Card = Card(name: string, uuid: Option<string>, block: Option<string>, setName: Option<string>,
                       collectorNumber: Option<string>, isDoubleFaced: bool, quantity: int)

  /** `Card(name=...)` with every other field at its default. */
  function NamedCard(name: string): Card {
    Card(name, None, None, None, None, false, 1)
  }

  /** A line that starts with "#" or "//" is a comment. */
  predicate IsComment(s: string) {
    StartsWith(s, "#") || StartsWith(s, "//")
  }

  function Slice(s: string, span: (nat, nat)): string
    requires InBounds(s, span)
  {
    s[span.0..span.1]
  }

  /** The card built from the groups of a match: the fields are trimmed, and the quantity defaults to 1. */
  function CardOf(s: string, g: Groups): (c: Card)
    requires GroupsInBounds(s, g)
    ensures c.uuid.None? && c.collectorNumber.None? && !c.isDoubleFaced
    ensures c.block.Some? <==> g.rest.WithTail?
    ensures c.setName.Some? ==> c.block.Some?
    ensures g.quantity.None? ==> c.quantity == 1
  {
    var quantity := if g.quantity.Some? then DecimalValue(s[..g.quantity.value.1]) else 1;
    var block := if g.rest.WithTail? then Some(Strip(Slice(s, g.rest.tail.block))) else None;
    var setName := if g.rest.WithTail? && g.rest.tail.setName.Some? then Some(Strip(Slice(s, g.rest.tail.setName.value))) else None;
    Card(Strip(Slice(s, g.name)), None, block, setName, None, false, quantity)
  }

  /** `parse_card_input`: a comment gives nothing; otherwise the groups of the request pattern, or the whole trimmed line. */
  function ParseCardInput(s: string): (r: Option<Card>)
    ensures r.None? <==> IsComment(s)
    ensures r.Some? ==> r.value.uuid.None? && r.value.collectorNumber.None? && !r.value.isDoubleFaced
  {
    if IsComment(s) then None
    else match Match(s)
      case None => Some(NamedCard(Strip(s)))
      case Some(g) => Some(CardOf(s, g))
  }

  // ---------------------------------------------------------------------------------------------
  // What a request line gives

  /** The quantity a request with the digit run `s[..d]` asks for. */
  function QuantityOf(s: string, d: nat): int
    requires d <= |s| && AllDigits(s[..d])
  {
    if d == 0 then 1 else DecimalValue(s[..d])
  }

  /** Input the pattern cannot match falls back to the trimmed line: on a single line that happens only
      for the empty string, which gives a card with an empty name. */
  lemma FallbackOnlyForEmpty(s: string)
    requires NoNewline(s) && !IsComment(s)
    ensures Match(s).None? <==> s == []
    ensures s == [] ==> ParseCardInput(s) == Some(NamedCard(""))
  {
    MatchIffNonEmpty(s);
  }

  /** The quantity is the leading digit run read as an integer, or 1 when the line does not start with a digit. */
  lemma QuantityIsLeadingDigits(s: string)
    requires NoNewline(s) && !IsComment(s) && DigitEnd(s, 0) < |s|
    ensures ParseCardInput(s).Some?
    ensures AllDigits(s[..DigitEnd(s, 0)])
    ensures ParseCardInput(s).value.quantity == QuantityOf(s, DigitEnd(s, 0))
  {
    var d := DigitEnd(s, 0);
    assert forall j :: 0 <= j < d ==> s[..d][j] == s[j];
    QuantityIsDigitRun(s);
  }

  /** A line of digits only: the quantity gives its last digit back, which becomes the name ("12" asks for
      one card named "2"). */
  lemma DigitsOnlyInput(s: string)
    requires s != [] && AllDigits(s)
    ensures ParseCardInput(s) == Some(Card([s[|s| - 1]], None, None, None, None, false,
                                           if |s| >= 2 then DecimalValue(s[..|s| - 1]) else 1))
  {
    var g := Groups(if |s| >= 2 then Some((0, |s| - 1)) else None, (|s| - 1, |s|), NoTail);
    DigitsOnlyCard(s);
    DigitsOnly(s);
    ParseOfMatch(s, g);
  }

  /** The card of the digits-only match: its name is the last digit. */
  lemma DigitsOnlyCard(s: string)
    requires s != [] && AllDigits(s)
    ensures !IsComment(s)
    ensures var g := Groups(if |s| >= 2 then Some((0, |s| - 1)) else None, (|s| - 1, |s|), NoTail);
      && GroupsInBounds(s, g)
      && CardOf(s, g) == Card([s[|s| - 1]], None, None, None, None, false, if |s| >= 2 then DecimalValue(s[..|s| - 1]) else 1)
  {
    assert IsDigit(s[0]) && s[..1][0] == s[0];
    assert |s| >= 2 ==> s[..2][0] == s[0];
    assert forall j :: 0 <= j < |s| - 1 ==> s[..|s| - 1][j] == s[j];
    assert Slice(s, (|s| - 1, |s|)) == [s[|s| - 1]];
    StrippedUnchanged([s[|s| - 1]]);
  }

  /** A matched line gives the card built from the match's groups. */
  lemma ParseOfMatch(s: string, g: Groups)
    requires !IsComment(s) && Match(s) == Some(g)
    ensures GroupsInBounds(s, g) && ParseCardInput(s) == Some(CardOf(s, g))
  {
  }

  /** The leading digit run, as a string of its own, holds only digits. */
  lemma LeadingDigits(s: string)
    ensures AllDigits(s[..DigitEnd(s, 0)])
  {
    var d := DigitEnd(s, 0);
    assert forall j :: 0 <= j < d ==> s[..d][j] == s[j];
  }

  /** The card of a match whose quantity is the leading digit run and whose name is `s[n..c]`. */
  lemma CardOfSpans(s: string, n: nat, c: nat, rest: Rest)
    requires DigitEnd(s, 0) < |s| && n < c <= |s| && RestInBounds(s, rest)
    ensures var d := DigitEnd(s, 0); var g := Groups(if d == 0 then None else Some((0, d)), (n, c), rest);
      && AllDigits(s[..d]) && GroupsInBounds(s, g)
      && CardOf(s, g) == Card(Strip(s[n..c]), None,
                              if rest.WithTail? then Some(Strip(s[rest.tail.block.0..rest.tail.block.1])) else None,
                              if rest.WithTail? && rest.tail.setName.Some?
                              then Some(Strip(s[rest.tail.setName.value.0..rest.tail.setName.value.1])) else None,
                              None, false, QuantityOf(s, d))
  {
    LeadingDigits(s);
  }

  /** A request without a '(' after the quantity: the name is the trimmed rest of the line, and there is
      no block and no set name. */
  lemma NameOnlyRequest(s: string)
    requires NoNewline(s) && !IsComment(s) && DigitEnd(s, 0) < |s|
    requires NameStart(s, DigitEnd(s, 0)) < |s|
    requires forall k :: NameStart(s, DigitEnd(s, 0)) <= k < |s| ==> s[k] != '('
    ensures AllDigits(s[..DigitEnd(s, 0)])
    ensures ParseCardInput(s) == Some(Card(Strip(s[NameStart(s, DigitEnd(s, 0))..|s|]), None, None, None, None, false,
                                           QuantityOf(s, DigitEnd(s, 0))))
  {
    var d := DigitEnd(s, 0);
    var n := NameStart(s, d);
    NameFromNoOpen(s, n, n + 1);
    MatchFromName(s, |s|, NoTail);
    CardOfSpans(s, n, |s|, NoTail);
    ParseOfMatch(s, Groups(if d == 0 then None else Some((0, d)), (n, |s|), NoTail));
  }

  /** A request `<name> (<block>) <set name>`: the name ends before the whitespace that leads to the first
      '(' after it, the block is the text up to the first ')', and everything after the whitespace that
      follows is the set name (none when nothing follows). All three are trimmed. */
  lemma BlockRequest(s: string, c: nat, o: nat, b: nat)
    requires NoNewline(s) && !IsComment(s) && DigitEnd(s, 0) < |s|
    requires NameStart(s, DigitEnd(s, 0)) < c <= o && o + 1 < b < |s|
    requires !IsSpace(s[c - 1]) && forall k :: NameStart(s, DigitEnd(s, 0)) <= k < c ==> s[k] != '('
    requires forall k :: c <= k < o ==> IsSpace(s[k])
    requires s[o] == '(' && s[b] == ')' && forall k :: o < k < b ==> s[k] != ')'
    ensures AllDigits(s[..DigitEnd(s, 0)])
    ensures ParseCardInput(s) == Some(Card(Strip(s[NameStart(s, DigitEnd(s, 0))..c]), None, Some(Strip(s[o + 1..b])),
                                           if SpaceEnd(s, b + 1) < |s| then Some(Strip(s[SpaceEnd(s, b + 1)..|s|])) else None,
                                           None, false, QuantityOf(s, DigitEnd(s, 0))))
  {
    var d := DigitEnd(s, 0);
    BlockMatch(s, c, o, b);
    ParseOfMatch(s, Groups(if d == 0 then None else Some((0, d)), (NameStart(s, d), c), WithTail(Tail((o + 1, b), SetSpan(s, b + 1)))));
    CardOfBlock(s, if d == 0 then None else Some((0, d)), NameStart(s, d), c, o, b, SetSpan(s, b + 1));
    SetSpanText(s, b + 1);
    LeadingDigits(s);
    QuantityOfSpan(s, d);
  }

  /** The match of a request `<name> (<block>) <set name>`. */
  lemma BlockMatch(s: string, c: nat, o: nat, b: nat)
    requires NoNewline(s) && !IsComment(s) && DigitEnd(s, 0) < |s|
    requires NameStart(s, DigitEnd(s, 0)) < c <= o && o + 1 < b < |s|
    requires !IsSpace(s[c - 1]) && forall k :: NameStart(s, DigitEnd(s, 0)) <= k < c ==> s[k] != '('
    requires forall k :: c <= k < o ==> IsSpace(s[k])
    requires s[o] == '(' && s[b] == ')' && forall k :: o < k < b ==> s[k] != ')'
    ensures var d := DigitEnd(s, 0);
      Match(s) == Some(Groups(if d == 0 then None else Some((0, d)), (NameStart(s, d), c), WithTail(Tail((o + 1, b), SetSpan(s, b + 1)))))
  {
    BlockNameEnd(s, c, o, b);
    MatchFromName(s, c, WithTail(Tail((o + 1, b), SetSpan(s, b + 1))));
  }

  /** The lazy name of a request `<name> (<block>) <set name>` ends at `c`, before the gap and the block. */
  lemma BlockNameEnd(s: string, c: nat, o: nat, b: nat)
    requires NoNewline(s) && DigitEnd(s, 0) < |s|
    requires NameStart(s, DigitEnd(s, 0)) < c <= o && o + 1 < b < |s|
    requires !IsSpace(s[c - 1]) && forall k :: NameStart(s, DigitEnd(s, 0)) <= k < c ==> s[k] != '('
    requires forall k :: c <= k < o ==> IsSpace(s[k])
    requires s[o] == '(' && s[b] == ')' && forall k :: o < k < b ==> s[k] != ')'
    ensures NameStart(s, DigitEnd(s, 0)) < |s|
    ensures NameFrom(s, NameStart(s, DigitEnd(s, 0)), NameStart(s, DigitEnd(s, 0)) + 1)
         == Some((c, WithTail(Tail((o + 1, b), SetSpan(s, b + 1)))))
  {
    var n := NameStart(s, DigitEnd(s, 0));
    NameStopsAtBlock(s, n, n + 1, c, o, b);
  }

  /** The card of groups with a block: each span's text, trimmed. */
  lemma CardOfBlock(s: string, q: Option<(nat, nat)>, n: nat, c: nat, o: nat, b: nat, setName: Option<(nat, nat)>)
    requires GroupsInBounds(s, Groups(q, (n, c), WithTail(Tail((o + 1, b), setName))))
    ensures o + 1 <= b <= |s| && (setName.Some? ==> setName.value.0 <= setName.value.1 <= |s|)
    ensures q.Some? ==> q.value.1 <= |s|
    ensures CardOf(s, Groups(q, (n, c), WithTail(Tail((o + 1, b), setName))))
         == Card(Strip(s[n..c]), None, Some(Strip(s[o + 1..b])),
                 if setName.Some? then Some(Strip(s[setName.value.0..setName.value.1])) else None,
                 None, false, if q.Some? then DecimalValue(s[..q.value.1]) else 1)
  {
  }

  /** The quantity of a match, read off the leading digit run. */
  lemma QuantityOfSpan(s: string, d: nat)
    requires d <= |s| && AllDigits(s[..d])
    ensures var q := if d == 0 then None else Some((0, d));
      (q.Some? ==> q.value.1 <= |s|)
      && QuantityOf(s, d) == if q.Some? then DecimalValue(s[..q.value.1]) else 1
  {
  }

  /** The trimmed set name a `SetSpan` gives. */
  lemma SetSpanText(s: string, i: nat)
    requires i <= |s|
    ensures SetSpan(s, i).Some? ==> SetSpan(s, i).value.0 <= SetSpan(s, i).value.1 <= |s|
    ensures (if SetSpan(s, i).Some? then Some(Strip(s[SetSpan(s, i).value.0..SetSpan(s, i).value.1])) else None)
         == (if SpaceEnd(s, i) < |s| then Some(Strip(s[SpaceEnd(s, i)..|s|])) else None)
  {
  }

  // ---------------------------------------------------------------------------------------------
  // Requests assembled from their parts

  /** The text before the name: a digit run `q` and at most one separator `sep` ('x' or whitespace). Without
      a separator the name must not start with a digit, an 'x' or whitespace, and a line without either
      must not start like a comment. */
  predicate IsLead(q: string, sep: string, name: string) {
    AllDigits(q) && |sep| <= 1 && name != []
    && (sep != [] ==> (sep[0] == 'x' || IsSpace(sep[0])) && sep[0] != '\n')
    && (sep == [] ==> !IsDigit(name[0]) && name[0] != 'x' && !IsSpace(name[0]))
    && (q == [] && sep == [] ==> name[0] != '#' && name[0] != '/')
  }

  /** Where the lead ends and the name starts in `q + sep + rest`. */
  lemma LeadLayout(q: string, sep: string, name: string, rest: string)
    requires IsLead(q, sep, name) && NoNewline(name)
    ensures var s := q + sep + name + rest;
      && !IsComment(s) && DigitEnd(s, 0) == |q| < |s| && NameStart(s, |q|) == |q| + |sep|
      && s[..|q|] == q && (forall k :: 0 <= k < |name| ==> s[|q| + |sep| + k] == name[k])
  {
    var s := q + sep + name + rest;
    var n := |q| + |sep|;
    assert forall k :: 0 <= k < |q| ==> s[k] == q[k];
    assert forall k :: 0 <= k < |name| ==> s[n + k] == name[k];
    assert s[|q|] == if sep != [] then sep[0] else name[0];
    DigitEndAt(s, 0, |q|);
    assert s[..|q|] == q;
    LeadNotComment(q, sep, name, rest);
  }

  lemma LeadNotComment(q: string, sep: string, name: string, rest: string)
    requires IsLead(q, sep, name)
    ensures !IsComment(q + sep + name + rest)
  {
    var s := q + sep + name + rest;
    if q != [] {
      assert s[..1][0] == q[0] && IsDigit(q[0]);
      assert |s| >= 2 ==> s[..2][0] == q[0];
    } else if sep != [] {
      assert s[..1][0] == sep[0];
      assert |s| >= 2 ==> s[..2][0] == sep[0];
    } else {
      assert s[..1][0] == name[0];
      assert |s| >= 2 ==> s[..2][0] == name[0];
    }
  }

  /** `<q><sep><name>` with no '(' in the name: the name is trimmed, and the quantity is `q` or 1. */
  lemma NameOnlyParts(s: string, q: string, sep: string, name: string)
    requires s == q + sep + name
    requires IsLead(q, sep, name) && NoNewline(name) && '(' !in name
    ensures ParseCardInput(s) == Some(Card(Strip(name), None, None, None, None, false,
                                                        if q == [] then 1 else DecimalValue(q)))
  {
    NameOnlyPartsFacts(q, sep, name);
    NameOnlyRequest(s);
  }

  /** The facts `NameOnlyRequest` needs about a request assembled from its parts. */
  lemma NameOnlyPartsFacts(q: string, sep: string, name: string)
    requires IsLead(q, sep, name) && NoNewline(name) && '(' !in name
    ensures var s := q + sep + name;
      && NoNewline(s) && !IsComment(s) && DigitEnd(s, 0) == |q| < |s| && s[..|q|] == q
      && NameStart(s, |q|) == |q| + |sep| < |s| && s[|q| + |sep|..|s|] == name
      && (forall k :: |q| + |sep| <= k < |s| ==> s[k] != '(')
  {
    var s := q + sep + name;
    LeadLayout(q, sep, name, []);
    assert s + [] == s;
    LeadNoNewline(q, sep, name);
    NoOpenAfter(q + sep, name);
  }

  /** A lead followed by a newline-free name has no newline. */
  lemma LeadNoNewline(q: string, sep: string, name: string)
    requires IsLead(q, sep, name) && NoNewline(name)
    ensures NoNewline(q + sep + name)
  {
    assert NoNewline(q) by {
      forall k | 0 <= k < |q| ensures q[k] != '\n' { assert IsDigit(q[k]); }
    }
    NoNewlineConcat(q, sep);
    NoNewlineConcat(q + sep, name);
  }

  /** Appending a text without '(' adds no '(' after the prefix. */
  lemma NoOpenAfter(a: string, name: string)
    requires '(' !in name
    ensures |a + name| == |a| + |name| && (a + name)[|a|..] == name
    ensures forall k :: |a| <= k < |a + name| ==> (a + name)[k] != '('
  {
    forall k | |a| <= k < |a + name| ensures (a + name)[k] != '(' {
      assert (a + name)[k] == name[k - |a|] && name[k - |a|] in name;
    }
    assert (a + name)[|a|..] == name;
  }

  /** `<q><sep><name> (<block>) <setName>`: the three parts come back trimmed, and an empty set name gives none. */
  lemma BlockParts(s: string, q: string, sep: string, name: string, gap: string, block: string, gap2: string, setName: string)
    requires s == q + sep + name + gap + "(" + block + ")" + gap2 + setName
    requires IsLead(q, sep, name) && NoNewline(name) && '(' !in name && !IsSpace(name[|name| - 1])
    requires AllSpace(gap) && NoNewline(gap)
    requires block != [] && NoNewline(block) && ')' !in block
    requires AllSpace(gap2) && NoNewline(gap2)
    requires NoNewline(setName) && (setName == [] || !IsSpace(setName[0]))
    ensures ParseCardInput(s)
         == Some(Card(Strip(name), None, Some(Strip(block)), if setName == [] then None else Some(Strip(setName)),
                      None, false, if q == [] then 1 else DecimalValue(q)))
  {
    var c := |q| + |sep| + |name|;
    var o := c + |gap|;
    var b := o + 1 + |block|;
    BlockPartsFacts(s, q, sep, name, gap, block, gap2, setName, c, o, b);
    BlockRequestSpans(s, q, name, block, setName, c, o, b);
  }

  /** The facts `BlockRequestSpans` needs about a request assembled from its parts. */
  lemma BlockPartsFacts(s: string, q: string, sep: string, name: string, gap: string, block: string, gap2: string, setName: string,
                        c: nat, o: nat, b: nat)
    requires s == q + sep + name + gap + "(" + block + ")" + gap2 + setName
    requires c == |q| + |sep| + |name| && o == c + |gap| && b == o + 1 + |block|
    requires IsLead(q, sep, name) && NoNewline(name) && '(' !in name && !IsSpace(name[|name| - 1])
    requires AllSpace(gap) && NoNewline(gap)
    requires block != [] && NoNewline(block) && ')' !in block
    requires AllSpace(gap2) && NoNewline(gap2)
    requires NoNewline(setName) && (setName == [] || !IsSpace(setName[0]))
    ensures NoNewline(s) && !IsComment(s) && DigitEnd(s, 0) == |q| < |s| && AllDigits(q) && s[..|q|] == q
    ensures name != [] && NameStart(s, |q|) + |name| == c <= o && o + 1 < b < |s|
    ensures !IsSpace(s[c - 1]) && forall k :: NameStart(s, |q|) <= k < c ==> s[k] != '('
    ensures forall k :: c <= k < o ==> IsSpace(s[k])
    ensures s[o] == '(' && s[b] == ')' && forall k :: o < k < b ==> s[k] != ')'
    ensures s[NameStart(s, |q|)..c] == name && s[o + 1..b] == block
    ensures SpaceEnd(s, b + 1) + |setName| == |s| && s[SpaceEnd(s, b + 1)..|s|] == setName
  {
    BlockPartsLines(s, q, sep, name, gap, block, gap2, setName);
    AfterName(s, q + sep + name, gap, block, gap2, setName);
    BlockPartsName(s, q, sep, name, gap + "(" + block + ")" + gap2 + setName, c);
    BlockPartsTail(s, q + sep, name, gap, block, gap2, setName, c, o, b);
    BlockPartsSetName(s, q + sep + name + gap + "(" + block + ")", gap2, setName, b);
  }

  /** What follows the name of an assembled request, as one text. */
  lemma AfterName(s: string, lead: string, gap: string, block: string, gap2: string, setName: string)
    requires s == lead + gap + "(" + block + ")" + gap2 + setName
    ensures s == lead + (gap + "(" + block + ")" + gap2 + setName)
  {
  }

  /** A request assembled from newline-free parts has no newline. */
  lemma BlockPartsLines(s: string, q: string, sep: string, name: string, gap: string, block: string, gap2: string, setName: string)
    requires s == q + sep + name + gap + "(" + block + ")" + gap2 + setName
    requires IsLead(q, sep, name) && NoNewline(name) && NoNewline(gap) && NoNewline(block)
    requires NoNewline(gap2) && NoNewline(setName)
    ensures NoNewline(s)
  {
    LeadNoNewline(q, sep, name);
    NoNewlineConcat(q + sep + name, gap);
    NoNewlineConcat(q + sep + name + gap, "(");
    NoNewlineConcat(q + sep + name + gap + "(", block);
    NoNewlineConcat(q + sep + name + gap + "(" + block, ")");
    NoNewlineConcat(q + sep + name + gap + "(" + block + ")", gap2);
    NoNewlineConcat(q + sep + name + gap + "(" + block + ")" + gap2, setName);
  }

  /** The name of an assembled request `<q><sep><name><rest>` starts right after the lead and holds no '('. */
  lemma BlockPartsName(s: string, q: string, sep: string, name: string, rest: string, c: nat)
    requires s == q + sep + name + rest && c == |q| + |sep| + |name|
    requires IsLead(q, sep, name) && NoNewline(name) && '(' !in name
    ensures !IsComment(s) && DigitEnd(s, 0) == |q| < |s| && AllDigits(q) && s[..|q|] == q
    ensures NameStart(s, |q|) == |q| + |sep| && NameStart(s, |q|) + |name| == c <= |s|
    ensures s[NameStart(s, |q|)..c] == name && forall k :: NameStart(s, |q|) <= k < c ==> s[k] != '('
  {
    LeadLayout(q, sep, name, rest);
    assert s[|q| + |sep|..c] == name;
    forall k | |q| + |sep| <= k < c ensures s[k] != '(' {
      assert s[k] == name[k - |q| - |sep|] && name[k - |q| - |sep|] in name;
    }
  }

  /** The gap, the parentheses and the block of an assembled request. */
  lemma BlockPartsTail(s: string, head: string, name: string, gap: string, block: string, gap2: string, setName: string,
                       c: nat, o: nat, b: nat)
    requires s == head + name + gap + "(" + block + ")" + gap2 + setName
    requires c == |head| + |name| && o == c + |gap| && b == o + 1 + |block|
    requires name != [] && !IsSpace(name[|name| - 1]) && AllSpace(gap) && ')' !in block && block != []
    ensures o + 1 < b < |s| && !IsSpace(s[c - 1]) && s[o + 1..b] == block
    ensures forall k :: c <= k < o ==> IsSpace(s[k])
    ensures s[o] == '(' && s[b] == ')' && forall k :: o < k < b ==> s[k] != ')'
  {
    var front := head + name + gap;
    var p := front + "(" + block + ")";
    assert s == p + gap2 + setName;
    assert |front| == o && |p| == b + 1;
    assert forall k :: 0 <= k < |p| ==> s[k] == p[k];
    assert p[c - 1] == name[|name| - 1];
    forall k | c <= k < o ensures IsSpace(s[k]) {
      assert p[k] == front[k] == gap[k - c];
    }
    forall k | o < k < b ensures s[k] != ')' {
      assert p[k] == block[k - o - 1] && block[k - o - 1] in block;
    }
    assert s[o + 1..b] == p[o + 1..b] == block;
  }

  /** After the ')' that ends `p`, the set name begins at the first non-space character. */
  lemma BlockPartsSetName(s: string, p: string, gap2: string, setName: string, b: nat)
    requires s == p + gap2 + setName && |p| == b + 1
    requires AllSpace(gap2) && (setName == [] || !IsSpace(setName[0]))
    ensures SpaceEnd(s, b + 1) + |setName| == |s| && s[SpaceEnd(s, b + 1)..|s|] == setName
  {
    var e := b + 1 + |gap2|;
    assert forall k :: b + 1 <= k < e ==> s[k] == gap2[k - b - 1];
    assert e < |s| ==> s[e] == setName[0];
    SpaceEndAt(s, b + 1, e);
    assert s[e..|s|] == setName;
  }

  /** `BlockRequest` with the spans' texts named. */
  lemma BlockRequestSpans(s: string, q: string, name: string, block: string, setName: string, c: nat, o: nat, b: nat)
    requires NoNewline(s) && !IsComment(s) && DigitEnd(s, 0) == |q| < |s| && AllDigits(q) && s[..|q|] == q
    requires name != [] && NameStart(s, |q|) + |name| == c <= o && o + 1 < b < |s|
    requires !IsSpace(s[c - 1]) && forall k :: NameStart(s, |q|) <= k < c ==> s[k] != '('
    requires forall k :: c <= k < o ==> IsSpace(s[k])
    requires s[o] == '(' && s[b] == ')' && forall k :: o < k < b ==> s[k] != ')'
    requires s[NameStart(s, |q|)..c] == name && s[o + 1..b] == block
    requires SpaceEnd(s, b + 1) + |setName| == |s| && s[SpaceEnd(s, b + 1)..|s|] == setName
    ensures ParseCardInput(s) == Some(Card(Strip(name), None, Some(Strip(block)), if setName == [] then None else Some(Strip(setName)),
                                           None, false, if q == [] then 1 else DecimalValue(q)))
  {
    BlockRequest(s, c, o, b);
  }

  // ---------------------------------------------------------------------------------------------
  // The requests of the command-line tests

  /** A text the request grammar keeps whole: one line, no parentheses, no outer whitespace. */
  predicate PlainText(x: string) {
    x != [] && NoNewline(x) && '(' !in x && ')' !in x && !IsSpace(x[0]) && !IsSpace(x[|x| - 1])
  }

  lemma PlainTextStripped(x: string)
    requires PlainText(x)
    ensures Strip(x) == x
  {
    StrippedUnchanged(x);
  }

  /** Leading whitespace in front of a plain text is trimmed off again. */
  lemma PaddedText(pad: string, x: string)
    requires AllSpace(pad) && NoNewline(pad) && PlainText(x)
    ensures var t := pad + x; t != [] && NoNewline(t) && '(' !in t && !IsSpace(t[|t| - 1]) && Strip(t) == x
  {
    var t := pad + x;
    NoNewlineConcat(pad, x);
    assert t[|t| - 1] == x[|x| - 1];
    forall c | c in t ensures c != '(' {
      var k :| 0 <= k < |t| && t[k] == c;
      if k >= |pad| { assert x[k - |pad|] == c; } else { assert IsSpace(pad[k]); }
    }
    StripPadded(pad, x, []);
    assert pad + x + [] == t;
  }

  lemma CardNameText()
    ensures PlainText("Card Name") && Strip("Card Name") == "Card Name"
  {
    assert !IsSpace('C') && !IsSpace('e');
    PlainTextStripped("Card Name");
  }

  lemma SetCodeText()
    ensures PlainText("set code") && Strip("set code") == "set code"
  {
    assert !IsSpace('s') && !IsSpace('e');
    PlainTextStripped("set code");
  }

  lemma SetNameText()
    ensures PlainText("Set Name") && Strip("Set Name") == "Set Name"
  {
    assert !IsSpace('S') && !IsSpace('e');
    PlainTextStripped("Set Name");
  }

  lemma CommaNameText()
    ensures PlainText("Card Name, With Comma") && Strip("Card Name, With Comma") == "Card Name, With Comma"
  {
    assert !IsSpace('C') && !IsSpace('a');
    PlainTextStripped("Card Name, With Comma");
  }

  /** The name group of "<q>x Card Name", which keeps the space after the 'x'. */
  lemma PaddedCardName()
    ensures var t := " Card Name"; NoNewline(t) && '(' !in t && !IsSpace(t[|t| - 1]) && Strip(t) == "Card Name"
  {
    CardNameText();
    PaddedText(" ", "Card Name");
    assert " " + "Card Name" == " Card Name";
  }

  lemma TestQuantities()
    ensures DecimalValue("1") == 1 && DecimalValue("5") == 5 && DecimalValue("10") == 10
  {
    assert "10"[..1] == "1";
  }

  lemma ParsesCardName(s: string)
    requires s == "Card Name"
    ensures ParseCardInput(s) == Some(NamedCard("Card Name"))
  {
    assert "" + "" + s == s;
    CardNameText();
    NameOnlyParts(s, "", "", s);
  }

  lemma ParsesNameWithComma(s: string)
    requires s == "Card Name, With Comma"
    ensures ParseCardInput(s) == Some(NamedCard("Card Name, With Comma"))
  {
    assert "" + "" + s == s;
    CommaNameText();
    NameOnlyParts(s, "", "", s);
  }

  lemma ParsesBlockAndSetName(s: string)
    requires s == "Card Name (set code) Set Name"
    ensures ParseCardInput(s) == Some(Card("Card Name", None, Some("set code"), Some("Set Name"), None, false, 1))
  {
    BlockAndSetNamePieces(s);
    CardNameText();
    SetCodeText();
    SetNameText();
    BlockParts(s, "", "", "Card Name", " ", "set code", " ", "Set Name");
  }

  lemma ParsesBlock(s: string)
    requires s == "Card Name (set code)"
    ensures ParseCardInput(s) == Some(Card("Card Name", None, Some("set code"), None, None, false, 1))
  {
    BlockPieces(s);
    CardNameText();
    SetCodeText();
    BlockParts(s, "", "", "Card Name", " ", "set code", "", "");
  }

  lemma ParsesCommaNameBlockAndSetName(s: string)
    requires s == "Card Name, With Comma (set code) Set Name"
    ensures ParseCardInput(s) == Some(Card("Card Name, With Comma", None, Some("set code"), Some("Set Name"), None, false, 1))
  {
    CommaNameBlockAndSetNamePieces(s);
    CommaNameText();
    SetCodeText();
    SetNameText();
    BlockParts(s, "", "", "Card Name, With Comma", " ", "set code", " ", "Set Name");
  }

  /** "1x Card Name": the 'x' is the separator, so the name group starts with the space, which is trimmed. */
  lemma ParsesQuantityXWithBlock(s: string)
    requires s == "1x Card Name (set code)"
    ensures ParseCardInput(s) == Some(Card("Card Name", None, Some("set code"), None, None, false, 1))
  {
    QuantityXWithBlockPieces(s);
    SetCodeText();
    PaddedCardName();
    BlockParts(s, "1", "x", " Card Name", " ", "set code", "", "");
    TestQuantities();
  }

  lemma ParsesQuantityXWithBlockAndSetName(s: string)
    requires s == "10x Card Name (set code) Set Name"
    ensures ParseCardInput(s) == Some(Card("Card Name", None, Some("set code"), Some("Set Name"), None, false, 10))
  {
    QuantityXWithBlockAndSetNamePieces(s);
    SetCodeText();
    SetNameText();
    PaddedCardName();
    BlockParts(s, "10", "x", " Card Name", " ", "set code", " ", "Set Name");
    TestQuantities();
  }

  lemma ParsesQuantityX(s: string)
    requires s == "5x Card Name"
    ensures ParseCardInput(s) == Some(Card("Card Name", None, None, None, None, false, 5))
  {
    QuantityXPieces(s);
    PaddedCardName();
    NameOnlyParts(s, "5", "x", " Card Name");
    TestQuantities();
  }

  lemma ParsesQuantityWithBlock(s: string)
    requires s == "1 Card Name (set code)"
    ensures ParseCardInput(s) == Some(Card("Card Name", None, Some("set code"), None, None, false, 1))
  {
    QuantityWithBlockPieces(s);
    CardNameText();
    SetCodeText();
    BlockParts(s, "1", " ", "Card Name", " ", "set code", "", "");
    TestQuantities();
  }

  lemma ParsesQuantityWithBlockAndSetName(s: string)
    requires s == "10 Card Name (set code) Set Name"
    ensures ParseCardInput(s) == Some(Card("Card Name", None, Some("set code"), Some("Set Name"), None, false, 10))
  {
    QuantityWithBlockAndSetNamePieces(s);
    CardNameText();
    SetCodeText();
    SetNameText();
    BlockParts(s, "10", " ", "Card Name", " ", "set code", " ", "Set Name");
    TestQuantities();
  }

  lemma ParsesQuantity(s: string)
    requires s == "5 Card Name"
    ensures ParseCardInput(s) == Some(Card("Card Name", None, None, None, None, false, 5))
  {
    QuantityPieces(s);
    CardNameText();
    NameOnlyParts(s, "5", " ", "Card Name");
    TestQuantities();
  }

  lemma BlockAndSetNamePieces(s: string)
    requires s == "Card Name (set code) Set Name"
    ensures s == "" + "" + "Card Name" + " " + "(" + "set code" + ")" + " " + "Set Name"
  {
  }

  lemma BlockPieces(s: string)
    requires s == "Card Name (set code)"
    ensures s == "" + "" + "Card Name" + " " + "(" + "set code" + ")" + "" + ""
  {
  }

  lemma CommaNameBlockAndSetNamePieces(s: string)
    requires s == "Card Name, With Comma (set code) Set Name"
    ensures s == "" + "" + "Card Name, With Comma" + " " + "(" + "set code" + ")" + " " + "Set Name"
  {
  }

  lemma QuantityXWithBlockPieces(s: string)
    requires s == "1x Card Name (set code)"
    ensures s == "1" + "x" + " Card Name" + " " + "(" + "set code" + ")" + "" + ""
  {
  }

  lemma QuantityXWithBlockAndSetNamePieces(s: string)
    requires s == "10x Card Name (set code) Set Name"
    ensures s == "10" + "x" + " Card Name" + " " + "(" + "set code" + ")" + " " + "Set Name"
  {
  }

  lemma QuantityXPieces(s: string)
    requires s == "5x Card Name"
    ensures s == "5" + "x" + " Card Name"
  {
  }

  lemma QuantityWithBlockPieces(s: string)
    requires s == "1 Card Name (set code)"
    ensures s == "1" + " " + "Card Name" + " " + "(" + "set code" + ")" + "" + ""
  {
  }

  lemma QuantityWithBlockAndSetNamePieces(s: string)
    requires s == "10 Card Name (set code) Set Name"
    ensures s == "10" + " " + "Card Name" + " " + "(" + "set code" + ")" + " " + "Set Name"
  {
  }

  lemma QuantityPieces(s: string)
    requires s == "5 Card Name"
    ensures s == "5" + " " + "Card Name"
  {
  }

  lemma CommentsGiveNothing()
    ensures ParseCardInput("#5 Card Name") == None
    ensures ParseCardInput("// 5 Card Name") == None
  {
    assert StartsWith("#5 Card Name", "#");
    assert StartsWith("// 5 Card Name", "//");
  }

  // ---------------------------------------------------------------------------------------------
  // File names of downloaded images

  /** The characters `slugify` replaces with '_': `/ \ < > | " * ? :`. */
  predicate IsUnsafe(c: char) {
    c == '/' || c == '\\' || c == '<' || c == '>' || c == '|' || c == '"' || c == '*' || c == '?' || c == ':'
  }

  function SlugChar(c: char): char {
    if IsUnsafe(c) then '_' else c
  }

  /** `slugify`: a card name made safe for a file name; the result has the same length and no unsafe character. */
  function Slugify(s: string): (r: string)
    ensures |r| == |s|
    ensures forall i :: 0 <= i < |r| ==> !IsUnsafe(r[i])
  {
    if s == [] then [] else [SlugChar(s[0])] + Slugify(s[1..])
  }

  /** Character by character, an unsafe character becomes '_' and every other one stays. */
  lemma {:induction false} SlugifyPointwise(s: string)
    ensures forall i :: 0 <= i < |s| ==> Slugify(s)[i] == if IsUnsafe(s[i]) then '_' else s[i]
  {
    if s != [] {
      SlugifyPointwise(s[1..]);
      assert forall i :: 1 <= i < |s| ==> Slugify(s)[i] == Slugify(s[1..])[i - 1] && s[1..][i - 1] == s[i];
    }
  }

  /** A name is left as it is exactly when it has no unsafe character. */
  lemma SlugifyFixesSafeNames(s: string)
    ensures Slugify(s) == s <==> forall i :: 0 <= i < |s| ==> !IsUnsafe(s[i])
  {
    SlugifyPointwise(s);
    if forall i :: 0 <= i < |s| ==> !IsUnsafe(s[i]) {
      assert forall i :: 0 <= i < |s| ==> Slugify(s)[i] == s[i];
    }
  }

  lemma SlugifyIdempotent(s: string)
    ensures Slugify(Slugify(s)) == Slugify(s)
  {
    SlugifyFixesSafeNames(Slugify(s));
  }

  /** Names that differ only in unsafe characters share a file name. */
  lemma SlugifyMergesUnsafe()
    ensures Slugify("a/b") == Slugify("a:b") == "a_b"
  {
    SlugifyPointwise("a/b");
    SlugifyPointwise("a:b");
  }

  /** `f"{output}/"` when an output directory is given, otherwise nothing. */
  function OutputPrefix(output: string): string {
    if output != "" then output + "/" else ""
  }

  /** The image file of one face of a card: prefix, slugified name, then the face's template filled with the
      set suffix `.BLOCK`. */
  function DownloadPath(output: string, card: Card, face: string): (r: string)
    requires face in ImageFilenameFormat
    ensures |r| >= |ImageFilenameFormat[face].after|
    ensures r[|r| - |ImageFilenameFormat[face].after|..] == ImageFilenameFormat[face].after
  {
    OutputPrefix(output) + Slugify(card.name) + Fill(ImageFilenameFormat[face], SetSuffix(card.block))
  }

  /** With the image table the two faces of a card are `<prefix><slug>[.BLOCK].png` and `...back.png`. */
  lemma DownloadPaths(output: string, card: Card)
    ensures var stem := OutputPrefix(output) + Slugify(card.name) + SetSuffix(card.block);
      && DownloadPath(output, card, "front") == stem + ".png"
      && DownloadPath(output, card, "back") == stem + ".back.png"
      && DownloadPath(output, card, "front") != DownloadPath(output, card, "back")
  {
    FacePath(output, card, "front", ".png");
    FacePath(output, card, "back", ".back.png");
  }

  /** A face whose template has nothing before the placeholder: the set suffix, then the extension. */
  lemma FacePath(output: string, card: Card, face: string, ext: string)
    requires face in ImageFilenameFormat && ImageFilenameFormat[face] == Template("", ext)
    ensures DownloadPath(output, card, face) == OutputPrefix(output) + Slugify(card.name) + SetSuffix(card.block) + ext
  {
    FillAfter(ext, SetSuffix(card.block));
    Associate(OutputPrefix(output) + Slugify(card.name), SetSuffix(card.block), ext);
  }

  lemma FillAfter(ext: string, arg: string)
    ensures Fill(Template("", ext), arg) == arg + ext
  {
    assert "" + arg == arg;
  }

  lemma Associate(a: string, b: string, c: string)
    ensures a + (b + c) == a + b + c
  {
  }

  /** The block's case does not change the file name. */
  lemma DownloadPathIgnoresBlockCase(output: string, card: Card, b1: string, b2: string, face: string)
    requires face in ImageFilenameFormat && Upper(b1) == Upper(b2)
    ensures DownloadPath(output, card.(block := Some(b1)), face) == DownloadPath(output, card.(block := Some(b2)), face)
  {
    assert |b1| == |Upper(b1)| && |b2| == |Upper(b2)|;
  }

  // ---------------------------------------------------------------------------------------------
  // The download loop

  /** One image request: which card, which face, and the file it is saved to. */
  datatype Fetch = Fetch(card: Card, face: string, path: string)

  /** What one card adds to `downloaded` and to the image requests. In a dry run nothing is fetched, and a
      card whose front image already exists is not counted; otherwise the front is fetched, and the back
      as well for a double-faced card, each fetch adding the card to `downloaded` once. */
  function DownloadStep(output: string, card: Card, dryrun: bool, existing: set<string>): (seq<Card>, seq<Fetch>) {
    var front := DownloadPath(output, card, "front");
    if dryrun then
      (if front in existing then [] else [card], [])
    else if card.isDoubleFaced then
      ([card, card], [Fetch(card, "front", front), Fetch(card, "back", DownloadPath(output, card, "back"))])
    else
      ([card], [Fetch(card, "front", front)])
  }

  /** The `downloaded` list and the image requests after the loop has handled `cards`. */
  function DownloadSpec(output: string, cards: seq<Card>, dryrun: bool, existing: set<string>): (r: (seq<Card>, seq<Fetch>))
    ensures dryrun ==> r.1 == [] && |r.0| <= |cards|
    ensures !dryrun ==> |r.0| == |r.1| && |cards| <= |r.1| <= 2 * |cards|
    decreases |cards|
  {
    if cards == [] then ([], [])
    else
      var before := DownloadSpec(output, cards[..|cards| - 1], dryrun, existing);
      var step := DownloadStep(output, cards[|cards| - 1], dryrun, existing);
      (before.0 + step.0, before.1 + step.1)
  }

  /** What `download_cards` does with the cards it has read: it creates the output directory when it does
      not exist, which fails for the empty path before any card, and then runs the loop against the disk
      as it is afterwards. Creating the directory changes nothing the loop looks at. */
  function DownloadOutcome(output: string, cards: seq<Card>, dryrun: bool, existing: set<string>)
    : (r: Result<(seq<Card>, seq<Fetch>), OsError>)
    ensures r.Failure? <==> output == ""
    ensures r.Failure? ==> r.error == FileNotFoundError(output)
    ensures r.Success? ==> r.value == DownloadSpec(output, cards, dryrun, existing)
  {
    var made := if Exists(existing, output) then Success({}) else MakeDirs(existing, output);
    match made
    case Failure(e) => Failure(e)
    case Success(dirs) =>
      MakeDirsWithinPath(existing, output);
      FrontsOutsideOutput(output, cards, existing, dirs);
      DownloadSpecFronts(output, cards, dryrun, existing + dirs, existing);
      Success(DownloadSpec(output, cards, dryrun, existing + dirs))
  }

  /** `download_cards` over the cards already read; `existing` holds the paths that exist on disk, which
      only the directory creation and a dry run look at. */
  method DownloadCards(output: string, cards: seq<Card>, dryrun: bool, existing: set<string>)
    returns (r: Result<(seq<Card>, seq<Fetch>), OsError>)
    ensures r == DownloadOutcome(output, cards, dryrun, existing)
  {
    var disk := existing;
    if !Exists(existing, output) {
      var made := MakeDirs(existing, output);
      if made.Failure? {
        return Failure(made.error);
      }
      disk := existing + made.value;
    }
    var downloaded := [];
    var fetches := [];
    for i := 0 to |cards|
      invariant downloaded == DownloadSpec(output, cards[..i], dryrun, disk).0
      invariant fetches == DownloadSpec(output, cards[..i], dryrun, disk).1
    {
      var card := cards[i];
      DownloadSpecNext(output, cards, i, dryrun, disk);
      DownloadStepCases(output, card, dryrun, disk);
      ghost var step := DownloadStep(output, card, dryrun, disk);
      ghost var before := (downloaded, fetches);
      var front := DownloadPath(output, card, "front");
      if dryrun {
        if front !in disk {
          downloaded := downloaded + [card];
        } else {
          AppendNothing(downloaded);
        }
        AppendNothing(fetches);
      } else {
        fetches := fetches + [Fetch(card, "front", front)];
        downloaded := downloaded + [card];
        if card.isDoubleFaced {
          var back := DownloadPath(output, card, "back");
          fetches := fetches + [Fetch(card, "back", back)];
          downloaded := downloaded + [card];
          AppendPair(before.0, card, card);
          AppendPair(before.1, Fetch(card, "front", front), Fetch(card, "back", back));
        }
      }
      assert downloaded == before.0 + step.0 && fetches == before.1 + step.1;
    }
    assert cards[..|cards|] == cards;
    return Success((downloaded, fetches));
  }

  /** No image path of a card lies among the directories `os.makedirs(output)` creates, since those are
      never longer than `output` itself. */
  lemma FrontsOutsideOutput(output: string, cards: seq<Card>, existing: set<string>, dirs: set<string>)
    requires output != "" && forall d :: d in dirs ==> |d| <= |output|
    ensures forall c :: c in cards ==>
      (DownloadPath(output, c, "front") in existing + dirs <==> DownloadPath(output, c, "front") in existing)
  {
    forall c | c in cards
      ensures DownloadPath(output, c, "front") !in dirs
    {
      assert |DownloadPath(output, c, "front")| > |output|;
    }
  }

  /** The loop only asks the disk about front images: two disks that agree on those give the same run. */
  lemma {:induction false} DownloadSpecFronts(output: string, cards: seq<Card>, dryrun: bool, a: set<string>, b: set<string>)
    requires forall c :: c in cards ==> (DownloadPath(output, c, "front") in a <==> DownloadPath(output, c, "front") in b)
    ensures DownloadSpec(output, cards, dryrun, a) == DownloadSpec(output, cards, dryrun, b)
    decreases |cards|
  {
    if cards != [] {
      var init := cards[..|cards| - 1];
      assert forall c :: c in init ==> c in cards;
      DownloadSpecFronts(output, init, dryrun, a, b);
      assert cards[|cards| - 1] in cards;
    }
  }

  lemma AppendNothing<T>(s: seq<T>)
    ensures s + [] == s
  {
  }

  lemma AppendPair<T>(s: seq<T>, a: T, b: T)
    ensures s + [a] + [b] == s + [a, b]
  {
  }

  /** The three cases of `DownloadStep`, spelled out. */
  lemma DownloadStepCases(output: string, card: Card, dryrun: bool, existing: set<string>)
    ensures var front := DownloadPath(output, card, "front"); var step := DownloadStep(output, card, dryrun, existing);
      && (dryrun ==> step == (if front in existing then [] else [card], []))
      && (!dryrun && card.isDoubleFaced ==>
            step == ([card, card], [Fetch(card, "front", front), Fetch(card, "back", DownloadPath(output, card, "back"))]))
      && (!dryrun && !card.isDoubleFaced ==> step == ([card], [Fetch(card, "front", front)]))
  {
  }

  lemma DownloadSpecNext(output: string, cards: seq<Card>, i: nat, dryrun: bool, existing: set<string>)
    requires i < |cards|
    ensures var before := DownloadSpec(output, cards[..i], dryrun, existing);
            var step := DownloadStep(output, cards[i], dryrun, existing);
      DownloadSpec(output, cards[..i + 1], dryrun, existing) == (before.0 + step.0, before.1 + step.1)
  {
    assert cards[..i + 1][..i] == cards[..i];
  }

  function DoubleFacedCount(cards: seq<Card>): nat
    decreases |cards|
  {
    if cards == [] then 0 else DoubleFacedCount(cards[..|cards| - 1]) + if cards[|cards| - 1].isDoubleFaced then 1 else 0
  }

  /** Outside a dry run every card is counted once, and once more when it is double-faced; each count is
      one image request. */
  lemma {:induction false} DownloadCount(output: string, cards: seq<Card>, existing: set<string>)
    ensures var r := DownloadSpec(output, cards, false, existing);
      |r.0| == |r.1| == |cards| + DoubleFacedCount(cards)
    decreases |cards|
  {
    if cards != [] {
      DownloadCount(output, cards[..|cards| - 1], existing);
    }
  }

  /** Outside a dry run each request saves the face it names to that face's path, and a back face is
      requested only for a double-faced card. */
  lemma {:induction false} FetchesArePaths(output: string, cards: seq<Card>, existing: set<string>)
    ensures var fetches := DownloadSpec(output, cards, false, existing).1;
      forall f :: f in fetches ==>
        && f.card in cards && (f.face == "front" || (f.face == "back" && f.card.isDoubleFaced))
        && f.path == DownloadPath(output, f.card, f.face)
    decreases |cards|
  {
    if cards != [] {
      var init := cards[..|cards| - 1];
      FetchesArePaths(output, init, existing);
      assert forall c :: c in init ==> c in cards;
    }
  }

  /** The elements of `s` that `keep` holds for, in order, repeats included. */
  function Filter<T>(s: seq<T>, keep: T -> bool): (r: seq<T>)
    ensures |r| <= |s|
    decreases |s|
  {
    if s == [] then []
    else
      (if keep(s[0]) then [s[0]] else []) + Filter(s[1..], keep)
  }

  /** Filtering one more element at the end adds it at the end when `keep` holds for it. */
  lemma {:induction false} FilterAppend<T>(s: seq<T>, x: T, keep: T -> bool)
    ensures Filter(s + [x], keep) == Filter(s, keep) + (if keep(x) then [x] else [])
    decreases |s|
  {
    if s != [] {
      assert (s + [x])[1..] == s[1..] + [x];
      FilterAppend(s[1..], x, keep);
    } else {
      assert [] + [x] == [x];
    }
  }

  /** Whether a card's front image is not on disk yet. */
  function FrontMissing(output: string, existing: set<string>): Card -> bool {
    c => DownloadPath(output, c, "front") !in existing
  }

  /** A dry run requests nothing, and counts exactly the cards whose front image does not exist yet: each
      such card once per time it is listed, in order. */
  lemma {:induction false} DryRunFetchesNothing(output: string, cards: seq<Card>, existing: set<string>)
    ensures var r := DownloadSpec(output, cards, true, existing);
      && r.1 == []
      && r.0 == Filter(cards, FrontMissing(output, existing))
      && |r.0| <= |cards|
      && (forall c :: c in r.0 ==> c in cards && DownloadPath(output, c, "front") !in existing)
      && (forall c :: c in cards && DownloadPath(output, c, "front") !in existing ==> c in r.0)
    decreases |cards|
  {
    if cards != [] {
      var init := cards[..|cards| - 1];
      DryRunFetchesNothing(output, init, existing);
      LastSplit(cards);
    }
    DryRunKeepsMissing(output, cards, existing);
  }

  /** The dry-run list is the listed cards filtered by a missing front image. */
  lemma {:induction false} DryRunKeepsMissing(output: string, cards: seq<Card>, existing: set<string>)
    ensures DownloadSpec(output, cards, true, existing).0 == Filter(cards, FrontMissing(output, existing))
    decreases |cards|
  {
    if cards != [] {
      var init := cards[..|cards| - 1];
      DryRunKeepsMissing(output, init, existing);
      LastSplit(cards);
      FilterAppend(init, cards[|cards| - 1], FrontMissing(output, existing));
    }
  }

  // ---------------------------------------------------------------------------------------------
  // The listing

  /** The line format of `list_cards`, chosen from its flags. */
  datatype ListingFormat = Json | BlockCnSet | BlockCn | BlockOnly | NameOnly

  /** `--json` wins; then block, collector number and set name; then block and collector number; then the
      block; the collector number or set name without the block gives names only. */
  function ListingFormatOf(json: bool, withBlock: bool, withCn: bool, withSet: bool): (f: ListingFormat)
    ensures f == Json <==> json
    ensures f == BlockCnSet <==> !json && withBlock && withCn && withSet
    ensures f == BlockCn <==> !json && withBlock && withCn && !withSet
    ensures f == BlockOnly <==> !json && withBlock && !withCn
    ensures f == NameOnly <==> !json && !withBlock
  {
    if json then Json
    else if withBlock && withCn && withSet then BlockCnSet
    else if withBlock && withCn then BlockCn
    else if withBlock then BlockOnly
    else NameOnly
  }

  /** A field in an f-string: `None` prints as "None". */
  function Show(o: Option<string>): string {
    if o.Some? then o.value else "None"
  }

  /** One line of the text listing. */
  function ListingLine(f: ListingFormat, c: Card): (line: string)
    requires f != Json
    ensures |line| >= |c.name| && line[..|c.name|] == c.name
    ensures line == c.name <==> f == NameOnly
  {
    match f
    case BlockCnSet => c.name + " (" + Show(c.block) + ") " + Show(c.collectorNumber) + " " + Show(c.setName)
    case BlockCn => c.name + " (" + Show(c.block) + ") " + Show(c.collectorNumber)
    case BlockOnly => c.name + " (" + Show(c.block) + ")"
    case NameOnly => c.name
  }

  function ListingLines(f: ListingFormat, cards: seq<Card>): (lines: seq<string>)
    requires f != Json
    ensures |lines| == |cards|
    ensures forall k :: 0 <= k < |cards| ==> lines[k] == ListingLine(f, cards[k])
  {
    seq(|cards|, k requires 0 <= k < |cards| => ListingLine(f, cards[k]))
  }

  /** What `list_cards` produces: nothing without a query, nothing when the search finds nothing, the
      cards as JSON, or the lines joined by newlines. */
  datatype Listing = NoQuery | NothingFound | JsonDump(cards: seq<Card>) | Text(text: string)

  /** `list_cards` once the search for the joined query has returned `found`. */
  function ListCards(args: seq<string>, found: seq<Card>, json: bool, withBlock: bool, withCn: bool, withSet: bool)
    : (r: Listing)
    ensures r == NoQuery <==> Join(args, ' ') == ""
    ensures r == NothingFound <==> Join(args, ' ') != "" && found == []
    ensures r.JsonDump? <==> Join(args, ' ') != "" && found != [] && json
    ensures r.JsonDump? ==> r.cards == found
  {
    var query := Join(args, ' ');
    if query == "" then NoQuery
    else if found == [] then NothingFound
    else
      var f := ListingFormatOf(json, withBlock, withCn, withSet);
      if f == Json then JsonDump(found) else Text(Join(ListingLines(f, found), '\n'))
  }

  /** The names listing gives the names back, one per line, when no name holds a newline. */
  lemma NameListingRoundTrip(args: seq<string>, found: seq<Card>, withCn: bool, withSet: bool)
    requires Join(args, ' ') != "" && found != []
    requires forall k :: 0 <= k < |found| ==> '\n' !in found[k].name
    ensures var r := ListCards(args, found, false, false, withCn, withSet);
      r.Text? && Split(r.text, '\n') == seq(|found|, k requires 0 <= k < |found| => found[k].name)
  {
    var lines := ListingLines(NameOnly, found);
    SplitJoin(lines, '\n');
  }

  /** A line of the block listing, `Name (block)`, reads back as a request for that card from that block. */
  lemma BlockListingReadsBack(c: Card)
    requires PlainText(c.name) && !IsDigit(c.name[0]) && c.name[0] != 'x' && c.name[0] != '#' && c.name[0] != '/'
    requires c.block.Some? && PlainText(c.block.value)
    ensures ParseCardInput(ListingLine(BlockOnly, c)) == Some(Card(c.name, None, c.block, None, None, false, 1))
  {
    var s := ListingLine(BlockOnly, c);
    var b := c.block.value;
    assert s == "" + "" + c.name + " " + "(" + b + ")" + "" + "";
    BlockParts(s, "", "", c.name, " ", b, "", "");
    PlainTextStripped(c.name);
    PlainTextStripped(b);
  }
}
