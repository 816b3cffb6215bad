/**
 * The pattern `parse_card_input` applies with `re.match`:
 *
 *     (\d+)?[x\s]?(.+?)(?:\s*\((.+?)\)\s*(.+)?)?$
 *
 * It is written out as the search Python's backtracking engine performs. A greedy part tries its
 * longest choice first and a lazy part its shortest, and the first complete match wins. `.` does not
 * match '\n', and `$` matches at the end of the input or just before a final '\n'. Positions are
 * indices into the input; a span `(a, b)` stands for the group's text `s[a..b]`.
 */
module RequestGrammar {
  import opened Wrappers
  import opened Text

  /** `$`. */
  predicate AtEnd(s: string, i: nat) {
    i == |s| || (i + 1 == |s| && s[i] == '\n')
  }

  predicate InBounds(s: string, span: (nat, nat)) {
    span.0 <= span.1 <= |s|
  }

  /** Greedy `.+` from `i`, followed by `$`: the end `t` counts down from `top`. */
  function DotsToEnd(s: string, i: nat, t: nat): (r: Option<nat>)
    requires i < t <= |s|
    ensures r.Some? ==> i < r.value <= t
    decreases t
  {
    if AtEnd(s, t) then Some(t) else if t == i + 1 then None else DotsToEnd(s, i, t - 1)
  }

  /** `(.+)?$` at `i`: `Some(Some(span))` when the set-name group takes `s[i..t]`, `Some(None)` when the
      group is skipped, and `None` when neither choice reaches `$`. */
  function SetNameAt(s: string, i: nat): (r: Option<Option<(nat, nat)>>)
    requires i <= |s|
    ensures r.Some? && r.value.Some? ==> i == r.value.value.0 < r.value.value.1 <= |s|
  {
    var e := LineEnd(s, i);
    var d := if i < e then DotsToEnd(s, i, e) else None;
    if d.Some? then Some(Some((i, d.value)))
    else if AtEnd(s, i) then Some(None)
    else None
  }

  /** `\s*(.+)?$` after the ')': the whitespace run from `i` is tried longest first (`e` counts down). */
  function AfterBlock(s: string, i: nat, e: nat): (r: Option<Option<(nat, nat)>>)
    requires i <= e <= |s|
    ensures r.Some? && r.value.Some? ==> i <= r.value.value.0 < r.value.value.1 <= |s|
    decreases e
  {
    var r := SetNameAt(s, e);
    if r.Some? then r else if e == i then None else AfterBlock(s, i, e - 1)
  }

  /** What the optional group `(?:\s*\((.+?)\)\s*(.+)?)` captured: the block and, if matched, the set name. */
  datatype Tail = Tail(block: (nat, nat), setName: Option<(nat, nat)>)

  predicate TailInBounds(s: string, t: Tail) {
    InBounds(s, t.block) && (t.setName.Some? ==> InBounds(s, t.setName.value))
  }

  /** Lazy `(.+?)\)` after the '(' at `o`: the block is `s[o + 1..b]`, with `b` counting up from `o + 2`. */
  function BlockFrom(s: string, o: nat, b: nat): (r: Option<Tail>)
    requires o < |s| && o + 2 <= b
    ensures r.Some? ==> TailInBounds(s, r.value) && r.value.block.0 == o + 1 < r.value.block.1
    decreases |s| - b
  {
    if b >= LineEnd(s, o + 1) then None
    else if s[b] == ')' && AfterBlock(s, b + 1, SpaceEnd(s, b + 1)).Some? then
      Some(Tail((o + 1, b), AfterBlock(s, b + 1, SpaceEnd(s, b + 1)).value))
    else BlockFrom(s, o, b + 1)
  }

  /** The optional group at `p`; its leading `\s*` is greedy, so `e` counts down from the end of the run. */
  function GroupAt(s: string, p: nat, e: nat): (r: Option<Tail>)
    requires p <= e <= |s|
    ensures r.Some? ==> TailInBounds(s, r.value)
    decreases e
  {
    var r := if e < |s| && s[e] == '(' then BlockFrom(s, e, e + 2) else None;
    if r.Some? then r else if e == p then None else GroupAt(s, p, e - 1)
  }

  /** What follows the name in a match: the optional group, or nothing. */
  datatype Rest = WithTail(tail: Tail) | NoTail

  predicate RestInBounds(s: string, r: Rest) {
    r.WithTail? ==> TailInBounds(s, r.tail)
  }

  /** The greedy optional group after a name that ends at `p`, then `$`. */
  function RestAt(s: string, p: nat): (r: Option<Rest>)
    requires p <= |s|
    ensures r.Some? ==> RestInBounds(s, r.value)
  {
    var g := GroupAt(s, p, SpaceEnd(s, p));
    if g.Some? then Some(WithTail(g.value))
    else if AtEnd(s, p) then Some(NoTail)
    else None
  }

  /** Lazy `(.+?)` for the name starting at `n`: its end `p` counts up from `n + 1`. */
  function NameFrom(s: string, n: nat, p: nat): (r: Option<(nat, Rest)>)
    requires n < p && n <= |s|
    ensures r.Some? ==> p <= r.value.0 <= |s| && RestInBounds(s, r.value.1)
    decreases |s| + 1 - p
  {
    if p > LineEnd(s, n) then None
    else if RestAt(s, p).Some? then Some((p, RestAt(s, p).value))
    else NameFrom(s, n, p + 1)
  }

  /** `[x\s]?` at `i`, greedy: one 'x' or whitespace character is taken when the rest can still match. */
  function AfterQuantity(s: string, i: nat): (r: Option<((nat, nat), Rest)>)
    requires i <= |s|
    ensures r.Some? ==> i <= r.value.0.0 < r.value.0.1 <= |s| && RestInBounds(s, r.value.1)
  {
    var taken := if i < |s| && (s[i] == 'x' || IsSpace(s[i])) then NameFrom(s, i + 1, i + 2) else None;
    if taken.Some? then Some(((i + 1, taken.value.0), taken.value.1))
    else
      var kept := NameFrom(s, i, i + 1);
      if kept.Some? then Some(((i, kept.value.0), kept.value.1)) else None
  }

  /** The groups of a match: the quantity, the name, and what follows the name. */
  datatype Groups = Groups(quantity: Option<(nat, nat)>, name: (nat, nat), rest: Rest)

  predicate GroupsInBounds(s: string, g: Groups) {
    (g.quantity.Some? ==> g.quantity.value.0 == 0 < g.quantity.value.1 <= |s| && AllDigits(s[..g.quantity.value.1]))
    && g.name.0 < g.name.1 <= |s| && RestInBounds(s, g.rest)
  }

  /** Greedy `(\d+)?`: the digit run `s[..d]` for `d` counting down to 1, then no quantity at all. */
  function QuantityFrom(s: string, d: nat): (r: Option<Groups>)
    requires d <= DigitEnd(s, 0)
    ensures r.Some? ==> GroupsInBounds(s, r.value)
    decreases d
  {
    var after := AfterQuantity(s, d);
    if d == 0 then
      if after.Some? then Some(Groups(None, after.value.0, after.value.1)) else None
    else if after.Some? then
      assert forall j :: 0 <= j < d ==> s[..d][j] == s[j];
      Some(Groups(Some((0, d)), after.value.0, after.value.1))
    else QuantityFrom(s, d - 1)
  }

  /** `re.match(pattern, s)`: the groups of the first match, or `None`. */
  function Match(s: string): (r: Option<Groups>)
    ensures r.Some? ==> GroupsInBounds(s, r.value)
  {
    QuantityFrom(s, DigitEnd(s, 0))
  }

  /** The set-name span when the text after the ')' at `i - 1` has no newline: everything after the whitespace. */
  function SetSpan(s: string, i: nat): Option<(nat, nat)>
    requires i <= |s|
  {
    if SpaceEnd(s, i) < |s| then Some((SpaceEnd(s, i), |s|)) else None
  }

  // ---------------------------------------------------------------------------------------------
  // How the search behaves on newline-free input

  /** Without a '(' the optional group cannot start anywhere in the whitespace run. */
  lemma {:induction false} GroupAtNoOpen(s: string, p: nat, e: nat)
    requires p <= e <= |s|
    requires forall k :: p <= k <= e && k < |s| ==> s[k] != '('
    ensures GroupAt(s, p, e) == None
    decreases e
  {
    if e > p {
      GroupAtNoOpen(s, p, e - 1);
    }
  }

  /** With no '(' from `p` on, the lazy name grows to the end of the input and nothing follows it. */
  lemma {:induction false} NameFromNoOpen(s: string, n: nat, p: nat)
    requires NoNewline(s) && n < p <= |s|
    requires forall k :: p <= k < |s| ==> s[k] != '('
    ensures NameFrom(s, n, p) == Some((|s|, NoTail))
    decreases |s| - p
  {
    LineEndNoNewline(s, n);
    GroupAtNoOpen(s, p, SpaceEnd(s, p));
    if p < |s| {
      assert !AtEnd(s, p);
      NameFromNoOpen(s, n, p + 1);
    }
  }

  /** On newline-free input the lazy name always finds an end: at the latest, the end of the input. */
  lemma {:induction false} NameFromSucceeds(s: string, n: nat, p: nat)
    requires NoNewline(s) && n < p <= |s|
    ensures NameFrom(s, n, p).Some?
    decreases |s| - p
  {
    LineEndNoNewline(s, n);
    if p == |s| {
      GroupAtNoOpen(s, p, p);
    } else if RestAt(s, p).None? {
      NameFromSucceeds(s, n, p + 1);
    }
  }

  /** After the ')' of a newline-free input, `\s*` takes all the whitespace and `(.+)` all the rest. */
  lemma AfterBlockNoNewline(s: string, i: nat)
    requires NoNewline(s) && i <= |s|
    ensures AfterBlock(s, i, SpaceEnd(s, i)) == Some(SetSpan(s, i))
  {
    var e := SpaceEnd(s, i);
    LineEndNoNewline(s, e);
  }

  /** The lazy block ends at the first ')' after the '('. */
  lemma {:induction false} BlockFromFirstClose(s: string, o: nat, b: nat, c: nat)
    requires NoNewline(s) && o < |s| && o + 2 <= b <= c < |s|
    requires s[c] == ')' && forall k :: b <= k < c ==> s[k] != ')'
    ensures BlockFrom(s, o, b) == Some(Tail((o + 1, c), SetSpan(s, c + 1)))
    decreases c - b
  {
    LineEndNoNewline(s, o + 1);
    if b < c {
      BlockFromFirstClose(s, o, b + 1, c);
    } else {
      AfterBlockNoNewline(s, c + 1);
    }
  }

  /** Whitespace, '(' at `o`, a non-empty block without ')', then ')' at `c`: the group matches there. */
  lemma RestAtBlock(s: string, p: nat, o: nat, c: nat)
    requires NoNewline(s) && p <= o && o + 1 < c < |s|
    requires forall k :: p <= k < o ==> IsSpace(s[k])
    requires s[o] == '(' && s[c] == ')' && forall k :: o < k < c ==> s[k] != ')'
    ensures RestAt(s, p) == Some(WithTail(Tail((o + 1, c), SetSpan(s, c + 1))))
  {
    SpaceEndAt(s, p, o);
    BlockFromFirstClose(s, o, o + 2, c);
  }

  /** Inside a name that ends in a non-space and holds no '(', neither the group nor `$` can match. */
  lemma RestFailsInsideName(s: string, n: nat, c: nat, p: nat)
    requires NoNewline(s) && n <= p < c <= |s|
    requires !IsSpace(s[c - 1]) && forall k :: n <= k < c ==> s[k] != '('
    ensures RestAt(s, p) == None
  {
    assert SpaceEnd(s, p) < c;
    GroupAtNoOpen(s, p, SpaceEnd(s, p));
    assert !AtEnd(s, p);
  }

  /** The lazy name stops right before the whitespace that leads to the first usable `(block)`. */
  lemma {:induction false} NameStopsAtBlock(s: string, n: nat, p: nat, c: nat, o: nat, b: nat)
    requires NoNewline(s) && n < p <= c <= o && o + 1 < b < |s|
    requires !IsSpace(s[c - 1]) && forall k :: n <= k < c ==> s[k] != '('
    requires forall k :: c <= k < o ==> IsSpace(s[k])
    requires s[o] == '(' && s[b] == ')' && forall k :: o < k < b ==> s[k] != ')'
    ensures NameFrom(s, n, p) == Some((c, WithTail(Tail((o + 1, b), SetSpan(s, b + 1)))))
    decreases c - p
  {
    LineEndNoNewline(s, n);
    if p < c {
      RestFailsInsideName(s, n, c, p);
      NameStopsAtBlock(s, n, p + 1, c, o, b);
    } else {
      RestAtBlock(s, c, o, b);
    }
  }

  /** How `(\d+)?[x\s]?` splits off the quantity once the name search from either start succeeds: the whole
      leading digit run is the quantity, and one 'x' or whitespace character after it is consumed. */
  lemma MatchPrefix(s: string)
    requires DigitEnd(s, 0) < |s|
    ensures var d := DigitEnd(s, 0); var q := if d == 0 then None else Some((0, d));
      && (d + 1 < |s| && (s[d] == 'x' || IsSpace(s[d])) && NameFrom(s, d + 1, d + 2).Some? ==>
            Match(s) == Some(Groups(q, (d + 1, NameFrom(s, d + 1, d + 2).value.0), NameFrom(s, d + 1, d + 2).value.1)))
      && (!(s[d] == 'x' || IsSpace(s[d])) && NameFrom(s, d, d + 1).Some? ==>
            Match(s) == Some(Groups(q, (d, NameFrom(s, d, d + 1).value.0), NameFrom(s, d, d + 1).value.1)))
  {
  }

  /** Where the name search starts once `(\d+)?` has taken the digits up to `d`: one 'x' or whitespace
      character is skipped. */
  function NameStart(s: string, d: nat): nat
    requires d < |s|
  {
    if s[d] == 'x' || IsSpace(s[d]) then d + 1 else d
  }

  /** Once the lazy name that starts after the quantity and its separator finds an end, that is the match. */
  lemma MatchFromName(s: string, c: nat, rest: Rest)
    requires DigitEnd(s, 0) < |s| && NameStart(s, DigitEnd(s, 0)) < |s|
    requires NameFrom(s, NameStart(s, DigitEnd(s, 0)), NameStart(s, DigitEnd(s, 0)) + 1) == Some((c, rest))
    ensures Match(s) == Some(Groups(if DigitEnd(s, 0) == 0 then None else Some((0, DigitEnd(s, 0))),
                                    (NameStart(s, DigitEnd(s, 0)), c), rest))
  {
    var d := DigitEnd(s, 0);
    MatchPrefix(s);
    if s[d] == 'x' || IsSpace(s[d]) {
      assert NameFrom(s, d + 1, d + 2) == Some((c, rest));
    } else {
      assert NameFrom(s, d, d + 1) == Some((c, rest));
    }
  }

  /** Once the name can be matched from the very start, the quantity search, backing off one digit at a time,
      always ends in a match. */
  lemma {:induction false} QuantityFromFallsBack(s: string, d: nat)
    requires d <= DigitEnd(s, 0) && AfterQuantity(s, 0).Some?
    ensures QuantityFrom(s, d).Some?
    decreases d
  {
    if d > 0 && AfterQuantity(s, d).None? {
      QuantityFromFallsBack(s, d - 1);
    }
  }

  /** A name search that keeps the first character succeeds, so the rest of the pattern can match. */
  lemma AfterQuantityKeeps(s: string, i: nat)
    requires i <= |s| && NameFrom(s, i, i + 1).Some?
    ensures AfterQuantity(s, i).Some?
  {
  }

  /** The quantity search always ends in a match on non-empty newline-free input. */
  lemma QuantityFromSucceeds(s: string, d: nat)
    requires NoNewline(s) && s != [] && d <= DigitEnd(s, 0)
    ensures QuantityFrom(s, d).Some?
  {
    NameFromSucceeds(s, 0, 1);
    AfterQuantityKeeps(s, 0);
    QuantityFromFallsBack(s, d);
  }

  /** On newline-free input the pattern fails only on the empty string, where no character is left for the name. */
  lemma MatchIffNonEmpty(s: string)
    requires NoNewline(s)
    ensures Match(s).Some? <==> s != []
  {
    if s != [] {
      QuantityFromSucceeds(s, DigitEnd(s, 0));
    }
  }

  /** When something follows the leading digits, they are the quantity; without digits there is none. */
  lemma QuantityIsDigitRun(s: string)
    requires NoNewline(s) && DigitEnd(s, 0) < |s|
    ensures Match(s).Some?
    ensures Match(s).value.quantity == if DigitEnd(s, 0) == 0 then None else Some((0, DigitEnd(s, 0)))
  {
    var d := DigitEnd(s, 0);
    NameFromSucceeds(s, d, d + 1);
    if d + 1 < |s| {
      NameFromSucceeds(s, d + 1, d + 2);
    }
  }

  /** An input of digits only: the greedy quantity gives back its last digit so that the name gets one character. */
  lemma DigitsOnly(s: string)
    requires s != [] && AllDigits(s)
    ensures Match(s) == Some(Groups(if |s| >= 2 then Some((0, |s| - 1)) else None, (|s| - 1, |s|), NoTail))
  {
    DigitEndAt(s, 0, |s|);
    assert NoNewline(s);
    LineEndNoNewline(s, |s|);
    LineEndNoNewline(s, |s| - 1);
    GroupAtNoOpen(s, |s|, |s|);
    assert AfterQuantity(s, |s|) == None;
    assert RestAt(s, |s|) == Some(NoTail);
    assert AfterQuantity(s, |s| - 1) == Some(((|s| - 1, |s|), NoTail));
    assert QuantityFrom(s, |s|) == QuantityFrom(s, |s| - 1);
  }
}
