/** The texts that SExpr.parse reads, and what they mean: exactly the well-formed ones,
    with any whitespace, lists closed or dotted, quotes, and any spelling of atoms. */
module Grammar {
  import opened Integers
  import opened Elements
  import opened AtomText
  import opened Symbll
  import opened Parser

  // ----- written forms -----

  /** A word; a tick before a form; a list. The gaps are the whitespace in the text. */
  datatype Form =
    | Leaf(word: string)
    | Ticked(gap: string, form: Form)
    | Group(members: Members)

  /** The members of a list up to its end. */
  datatype Members =
    | Closed(gap: string)
    | Dotted(before: string, after: string, tail: Form, close: string)
    | More(gap: string, form: Form, rest: Members)

  function Spell(f: Form): (s: string)
    ensures !f.Leaf? ==> s != ""
  {
    match f
    case Leaf(word) => word
    case Ticked(gap, form) => "'" + gap + Spell(form)
    case Group(members) => "(" + SpellRest(members)
  }

  function SpellRest(xs: Members): (s: string)
    ensures s != ""
  {
    match xs
    case Closed(gap) => gap + ")"
    case Dotted(before, after, tail, close) => before + "." + after + Spell(tail) + close + ")"
    case More(gap, form, rest) => gap + Spell(form) + SpellRest(rest)
  }

  predicate IsGap(s: string) {
    forall i | 0 <= i < |s| :: IsSpace(s[i])
  }

  /** Text between quote marks. */
  predicate IsQuote(s: string) {
    |s| >= 2 && s[0] == '"' && s[|s| - 1] == '"' && forall i | 0 < i < |s| - 1 :: s[i] != '"'
  }

  /** The end of the form can be told from the text behind it. */
  predicate Ends(f: Form, after: string) {
    match f
    case Leaf(word) => IsQuote(word) || EndsWord(after)
    case Ticked(_, form) => Ends(form, after)
    case Group(_) => true
  }

  predicate Well(f: Form, utf8: string -> Bytes) {
    match f
    case Leaf(word) => (IsWord(word) || IsQuote(word)) && WordValue(word, utf8).Some?
    case Ticked(gap, form) => IsGap(gap) && Well(form, utf8)
    case Group(members) => !members.Dotted? && WellRest(members, utf8)
  }

  predicate WellRest(xs: Members, utf8: string -> Bytes) {
    match xs
    case Closed(gap) => IsGap(gap)
    case Dotted(before, after, tail, close) => IsGap(before) && IsGap(after) && Well(tail, utf8) && IsGap(close)
    case More(gap, form, rest) => IsGap(gap) && Well(form, utf8) && WellRest(rest, utf8) && Ends(form, SpellRest(rest))
  }

  /** What a form stands for: a tick quotes, and a list ends in nil or in its tail. */
  function Meaning(f: Form, utf8: string -> Bytes): SExpr
    requires Well(f, utf8)
  {
    match f
    case Leaf(word) => WordValue(word, utf8).value
    case Ticked(_, form) => SPair(Symbol("q"), Meaning(form, utf8))
    case Group(members) => MeaningRest(members, utf8)
  }

  function MeaningRest(xs: Members, utf8: string -> Bytes): SExpr
    requires WellRest(xs, utf8)
  {
    match xs
    case Closed(_) => SNil
    case Dotted(_, _, tail, _) => Meaning(tail, utf8)
    case More(_, form, rest) => SPair(Meaning(form, utf8), MeaningRest(rest, utf8))
  }

  // ----- reading a form -----

  /** Where a new element ends up: behind the members of the innermost list, or inside
      the quotes that wait for it. */
  function Placed(p: Par, e: SExpr): Par
    decreases Depth(p)
  {
    if p.Inner? && p.top == [TickMark] then Placed(p.below, SPair(Symbol("q"), e)) else Append(p, Item(e))
  }

  /** An element can follow. */
  predicate Open(p: Par)
    decreases Depth(p)
  {
    if p.Inner? && p.top == [TickMark] then Open(p.below) else Ready(p)
  }

  lemma {:induction false} PlacedSettles(p: Par, e: SExpr)
    requires Open(p)
    ensures Settled(Append(p, Item(e))) == Some(Placed(p, e))
    decreases Depth(p)
  {
    if p.Inner? && p.top == [TickMark] {
      assert Append(p, Item(e)).top == [TickMark, Item(e)];
      PlacedSettles(p.below, SPair(Symbol("q"), e));
    } else {
      Added(p, e);
    }
  }

  lemma {:induction false} SpacesOf(gap: string, s: string)
    requires IsGap(gap) && (s == "" || !IsSpace(s[0]))
    ensures Spaces(gap + s) == |gap|
  {
    if gap == "" {
      assert gap + s == s;
    } else {
      assert (gap + s)[1..] == gap[1..] + s;
      SpacesOf(gap[1..], s);
    }
  }

  lemma GapScanned(gap: string, s: string, p: Par, utf8: string -> Bytes)
    requires IsGap(gap) && (s == "" || !IsSpace(s[0])) && Settled(p) == Some(p)
    ensures Scan(gap + s, p, utf8) == Scan(s, p, utf8)
  {
    hide Scan, Settled, IsSpace;
    if gap == "" {
      assert gap + s == s;
    } else {
      SpacesOf(gap, s);
      assert (gap + s)[|gap|..] == s && IsSpace((gap + s)[0]);
      ScanToken(gap + s, p, Space, s, p, utf8);
    }
  }

  lemma {:induction false} QuotedLength(s: string, rest: string)
    requires forall i | 0 <= i < |s| :: s[i] != '"'
    ensures Quoted(s + "\"" + rest) == Some(|s|)
  {
    if s == "" {
      assert s + "\"" + rest == "\"" + rest;
    } else {
      assert (s + "\"" + rest)[1..] == s[1..] + "\"" + rest;
      QuotedLength(s[1..], rest);
    }
  }

  /** A word is the next token. */
  lemma WordToken(w: string, rest: string)
    requires IsQuote(w) || (IsWord(w) && EndsWord(rest))
    ensures w != "" && NextToken(w + rest) == Scanned.Token(Word(w), rest)
  {
    var s := w + rest;
    assert s[..|w|] == w && s[|w|..] == rest;
    if IsQuote(w) {
      var inner := w[1..|w| - 1];
      QuotedLength(inner, rest);
      assert s[1..] == inner + "\"" + rest;
    } else {
      WordLength(w, rest);
    }
  }

  lemma LeafScanned(w: string, rest: string, p: Par, utf8: string -> Bytes)
    requires Well(Leaf(w), utf8) && Ends(Leaf(w), rest) && Open(p)
    ensures Scan(w + rest, p, utf8) == Scan(rest, Placed(p, Meaning(Leaf(w), utf8)), utf8)
  {
    hide Scan, Settled, WordValue, NextToken;
    WordToken(w, rest);
    PlacedSettles(p, WordValue(w, utf8).value);
    ScanToken(w + rest, p, Word(w), rest, Placed(p, WordValue(w, utf8).value), utf8);
  }

  lemma TickScanned(s: string, p: Par, utf8: string -> Bytes)
    ensures Scan("'" + s, p, utf8) == Scan(s, Inner([TickMark], p), utf8)
  {
    hide Scan;
    assert ("'" + s)[1..] == s;
    ScanToken("'" + s, p, Tick, s, Inner([TickMark], p), utf8);
  }

  lemma ListClosed(rest: string, slots: seq<Slot>, p: Par, e: SExpr, utf8: string -> Bytes)
    requires Open(p) && (slots == [] || (slots[|slots| - 1].Item? && slots[0].Item?))
    requires ListValue(slots) == Some(e)
    ensures Scan(")" + rest, Inner(slots, p), utf8) == Scan(rest, Placed(p, e), utf8)
  {
    hide Scan, Settled, ListValue;
    assert (")" + rest)[1..] == rest;
    PlacedSettles(p, e);
    ScanToken(")" + rest, Inner(slots, p), Closing, rest, Placed(p, e), utf8);
  }

  /** No form starts with whitespace. */
  lemma FormStarts(f: Form, rest: string, utf8: string -> Bytes)
    requires Well(f, utf8)
    ensures Spell(f) != "" && !IsSpace((Spell(f) + rest)[0])
  {
    hide WordValue;
  }

  lemma {:induction false} FormScanned(f: Form, rest: string, p: Par, utf8: string -> Bytes)
    requires Well(f, utf8) && Ends(f, rest) && Open(p)
    ensures Scan(Spell(f) + rest, p, utf8) == Scan(rest, Placed(p, Meaning(f, utf8)), utf8)
    decreases f
  {
    hide Scan, Settled, NextToken, WordValue;
    match f {
      case Leaf(w) => LeafScanned(w, rest, p, utf8);
      case Ticked(gap, form) =>
        var q := Inner([TickMark], p);
        assert Spell(f) + rest == "'" + (gap + (Spell(form) + rest));
        TickScanned(gap + (Spell(form) + rest), p, utf8);
        FormStarts(form, rest, utf8);
        TickSettled(p);
        GapScanned(gap, Spell(form) + rest, q, utf8);
        FormScanned(form, rest, q, utf8);
      case Group(members) =>
        assert Spell(f) + rest == "(" + (SpellRest(members) + rest);
        OpeningScanned(SpellRest(members) + rest, p, utf8);
        MembersScanned(members, rest, [], p, utf8);
    }
  }

  lemma TickSettled(p: Par)
    ensures Settled(Inner([TickMark], p)) == Some(Inner([TickMark], p))
  {
  }

  lemma EndsAfter(f: Form, s: string, rest: string)
    requires Ends(f, s) && s != ""
    ensures Ends(f, s + rest)
  {
  }

  /** The rest of a list completes the innermost list. */
  lemma {:induction false} MembersScanned(xs: Members, rest: string, slots: seq<Slot>, p: Par, utf8: string -> Bytes)
    requires WellRest(xs, utf8) && AllItems(slots) && Open(p) && (xs.Dotted? ==> slots != [])
    ensures Scan(SpellRest(xs) + rest, Inner(slots, p), utf8) ==
            Scan(rest, Placed(p, Listed(slots, MeaningRest(xs, utf8))), utf8)
    decreases xs
  {
    hide Scan, Settled, NextToken, Listed, WordValue, IsSpace;
    var q := Inner(slots, p);
    Unchanged(q);
    match xs {
      case Closed(gap) =>
        assert SpellRest(xs) + rest == gap + (")" + rest);
        Punctuation();
        GapScanned(gap, ")" + rest, q, utf8);
        ListClosed(rest, slots, p, Listed(slots, SNil), utf8);
      case Dotted(_, _, _, _) => DottedScanned(xs, rest, slots, p, utf8);
      case More(gap, form, more) =>
        var s := SpellRest(more) + rest;
        assert SpellRest(xs) + rest == gap + (Spell(form) + s);
        FormStarts(form, s, utf8);
        GapScanned(gap, Spell(form) + s, q, utf8);
        EndsAfter(form, SpellRest(more), rest);
        FormScanned(form, s, q, utf8);
        var e := Meaning(form, utf8);
        assert Placed(q, e) == Inner(slots + [Item(e)], p);
        MembersScanned(more, rest, slots + [Item(e)], p, utf8);
        ListedAppend(slots, e, MeaningRest(more, utf8));
    }
  }

  lemma Punctuation()
    ensures !IsSpace(')') && !IsSpace('(') && !IsSpace('.') && !IsSpace('\'')
  {
  }

  lemma {:induction false} DottedScanned(xs: Members, rest: string, slots: seq<Slot>, p: Par, utf8: string -> Bytes)
    requires xs.Dotted? && WellRest(xs, utf8) && AllItems(slots) && slots != [] && Open(p)
    ensures Scan(SpellRest(xs) + rest, Inner(slots, p), utf8) ==
            Scan(rest, Placed(p, Listed(slots, MeaningRest(xs, utf8))), utf8)
    decreases xs, 0
  {
    hide Scan, Settled, NextToken, Listed, WordValue, IsSpace;
    var q, e := Inner(slots, p), Meaning(xs.tail, utf8);
    var dotted := Inner(slots + [DotMark], p);
    var closing := ")" + rest;
    var end := xs.close + closing;
    var tail := Spell(xs.tail) + end;
    assert SpellRest(xs) + rest == xs.before + ("." + (xs.after + tail));
    Punctuation();
    Unchanged(q);
    GapScanned(xs.before, "." + (xs.after + tail), q, utf8);
    Unchanged(dotted);
    DotScanned(xs.after + tail, q, utf8);
    FormStarts(xs.tail, end, utf8);
    GapScanned(xs.after, tail, dotted, utf8);
    EndsClosing(xs.tail, xs.close, rest);
    FormScanned(xs.tail, end, dotted, utf8);
    var full := slots + [DotMark] + [Item(e)];
    assert Placed(dotted, e) == Inner(full, p);
    Unchanged(Inner(full, p));
    GapScanned(xs.close, closing, Inner(full, p), utf8);
    assert full[..|full| - 2] == slots;
    ListClosed(rest, full, p, Listed(slots, e), utf8);
  }

  lemma EndsClosing(f: Form, gap: string, rest: string)
    requires IsGap(gap)
    ensures Ends(f, gap + (")" + rest))
  {
    assert (gap + (")" + rest))[0] == if gap == "" then ')' else gap[0];
  }

  /** A text is a form with whitespace around it. */
  ghost predicate Spells(s: string, f: Form, utf8: string -> Bytes) {
    Well(f, utf8) && exists before, behind :: IsGap(before) && IsGap(behind) && s == before + Spell(f) + behind
  }

  lemma SpelledParses(s: string, f: Form, utf8: string -> Bytes)
    requires Spells(s, f, utf8)
    ensures Parse(s, utf8) == Some(Meaning(f, utf8))
  {
    hide Scan, Spell, Meaning, Well, Ends;
    var before, behind :| IsGap(before) && IsGap(behind) && s == before + Spell(f) + behind;
    var e, p := Meaning(f, utf8), Bottom([]);
    assert s == before + (Spell(f) + behind);
    FormStarts(f, behind, utf8);
    GapScanned(before, Spell(f) + behind, p, utf8);
    EndsGap(f, behind);
    FormScanned(f, behind, p, utf8);
    assert [] + [Item(e)] == [Item(e)];
    assert behind + "" == behind;
    GapScanned(behind, "", Bottom([Item(e)]), utf8);
    ScanNothing(Bottom([Item(e)]), utf8);
  }

  lemma ScanNothing(p: Par, utf8: string -> Bytes)
    ensures Scan("", p, utf8) == Some(p)
  {
  }

  lemma EndsGap(f: Form, gap: string)
    requires IsGap(gap)
    ensures Ends(f, gap)
  {
  }

  // ----- what has been read -----

  ghost predicate FormAt(s: string, i: nat, j: nat, e: SExpr, utf8: string -> Bytes) {
    i <= j <= |s| && exists f :: Well(f, utf8) && Meaning(f, utf8) == e && Spell(f) == s[i..j] && Ends(f, s[j..])
  }

  predicate GapAt(s: string, i: nat, j: nat) {
    i <= j <= |s| && IsGap(s[i..j])
  }

  /** A member, or the mark of a dot, stands at i..j. */
  ghost predicate SlotAt(s: string, i: nat, j: nat, slot: Slot, utf8: string -> Bytes) {
    match slot
    case Item(e) => FormAt(s, i, j, e, utf8)
    case DotMark => j == i + 1 <= |s| && s[i] == '.'
    case TickMark => false
  }

  /** The text at i..j is these slots with gaps before each. */
  ghost predicate Covers(s: string, i: nat, j: nat, slots: seq<Slot>, utf8: string -> Bytes)
    decreases |slots|
  {
    if slots == [] then i == j <= |s|
    else
      exists a: nat, b: nat ::
        && Covers(s, i, a, slots[..|slots| - 1], utf8) && GapAt(s, a, b)
        && SlotAt(s, b, j, slots[|slots| - 1], utf8)
  }

  /** The text up to i is what the open lists hold. */
  ghost predicate Spelled(s: string, i: nat, p: Par, utf8: string -> Bytes)
    decreases Depth(p), 1
  {
    exists j: nat :: GapAt(s, j, i) && Level(s, j, p, utf8)
  }

  ghost predicate Level(s: string, j: nat, p: Par, utf8: string -> Bytes)
    decreases Depth(p), 0
  {
    match p
    case Bottom(top) => Covers(s, 0, j, top, utf8)
    case Inner(top, below) =>
      exists k: nat :: k < |s| && Spelled(s, k, below, utf8) && Opened(s, k, j, top, utf8)
  }

  ghost predicate Opened(s: string, k: nat, j: nat, top: seq<Slot>, utf8: string -> Bytes)
    requires k < |s|
  {
    if top != [] && top[0].TickMark? then top == [TickMark] && s[k] == '\'' && j == k + 1
    else s[k] == '(' && Covers(s, k + 1, j, top, utf8)
  }

  lemma GapsJoin(s: string, i: nat, j: nat, k: nat)
    requires GapAt(s, i, j) && GapAt(s, j, k)
    ensures GapAt(s, i, k)
  {
    assert s[i..k] == s[i..j] + s[j..k];
  }

  lemma NoGap(s: string, i: nat)
    requires i <= |s|
    ensures GapAt(s, i, i)
  {
  }

  lemma CoversMore(s: string, i: nat, a: nat, b: nat, j: nat, slots: seq<Slot>, slot: Slot, utf8: string -> Bytes)
    requires Covers(s, i, a, slots, utf8) && GapAt(s, a, b) && SlotAt(s, b, j, slot, utf8)
    ensures Covers(s, i, j, slots + [slot], utf8)
  {
    hide SlotAt, GapAt;
    var all := slots + [slot];
    assert all[..|all| - 1] == slots && all[|all| - 1] == slot;
  }

  /** A slot behind the open lists, when no quote waits. */
  lemma Extends(s: string, i: nat, j: nat, p: Par, slot: Slot, utf8: string -> Bytes)
    requires Spelled(s, i, p, utf8) && SlotAt(s, i, j, slot, utf8) && !(p.Inner? && p.top == [TickMark])
    requires j <= |s|
    ensures Spelled(s, j, Append(p, slot), utf8)
  {
    hide SlotAt, GapAt, Covers;
    var a: nat :| GapAt(s, a, i) && Level(s, a, p, utf8);
    NoGap(s, j);
    match p {
      case Bottom(top) =>
        CoversMore(s, 0, a, i, j, top, slot, utf8);
      case Inner(top, below) =>
        var k: nat :| k < |s| && Spelled(s, k, below, utf8) && Opened(s, k, a, top, utf8);
        CoversMore(s, k + 1, a, i, j, top, slot, utf8);
        assert (top + [slot])[0] == if top == [] then slot else top[0];
        SlotIsNoTick(s, i, j, slot, utf8);
        assert Opened(s, k, j, top + [slot], utf8);
    }
    assert Level(s, j, Append(p, slot), utf8);
  }

  lemma SlotIsNoTick(s: string, i: nat, j: nat, slot: Slot, utf8: string -> Bytes)
    requires SlotAt(s, i, j, slot, utf8)
    ensures !slot.TickMark?
  {
  }

  /** An element goes where the parser places it. */
  lemma {:induction false} PlacesForm(s: string, i: nat, j: nat, p: Par, e: SExpr, utf8: string -> Bytes)
    requires Spelled(s, i, p, utf8) && FormAt(s, i, j, e, utf8)
    ensures Spelled(s, j, Placed(p, e), utf8)
    decreases Depth(p)
  {
    if p.Inner? && p.top == [TickMark] {
      hide FormAt, Covers, Append;
      var a: nat :| GapAt(s, a, i) && Level(s, a, p, utf8);
      var k: nat :| k < |s| && Spelled(s, k, p.below, utf8) && Opened(s, k, a, p.top, utf8);
      TicksForm(s, k, i, j, e, utf8);
      PlacesForm(s, k, j, p.below, SPair(Symbol("q"), e), utf8);
    } else {
      assert SlotAt(s, i, j, Item(e), utf8);
      Extends(s, i, j, p, Item(e), utf8);
    }
  }

  lemma TicksForm(s: string, k: nat, i: nat, j: nat, e: SExpr, utf8: string -> Bytes)
    requires k < |s| && s[k] == '\'' && GapAt(s, k + 1, i) && FormAt(s, i, j, e, utf8)
    ensures FormAt(s, k, j, SPair(Symbol("q"), e), utf8)
  {
    hide WordValue, IsSpace;
    var f :| Well(f, utf8) && Meaning(f, utf8) == e && Spell(f) == s[i..j] && Ends(f, s[j..]);
    var t := Ticked(s[k + 1..i], f);
    assert s[k..j] == [s[k]] + s[k + 1..i] + s[i..j];
    assert Well(t, utf8) && Meaning(t, utf8) == SPair(Symbol("q"), e) && Spell(t) == s[k..j] && Ends(t, s[j..]);
  }

  /** Members in front of the rest of a list. */
  lemma {:induction false} Prepends(s: string, i: nat, j: nat, z: nat, slots: seq<Slot>, xs: Members,
                                    utf8: string -> Bytes) returns (ys: Members)
    requires Covers(s, i, j, slots, utf8) && AllItems(slots)
    requires j <= z <= |s| && WellRest(xs, utf8) && SpellRest(xs) == s[j..z]
    ensures i <= j && WellRest(ys, utf8) && SpellRest(ys) == s[i..z]
    ensures MeaningRest(ys, utf8) == Listed(slots, MeaningRest(xs, utf8))
    ensures if slots == [] then ys == xs else ys.More?
    decreases |slots|
  {
    hide Listed, FormAt, GapAt, WellRest, SpellRest, MeaningRest;
    if slots == [] {
      ys := xs;
      ListedNone(MeaningRest(xs, utf8));
    } else {
      var init, e := slots[..|slots| - 1], slots[|slots| - 1].e;
      var a: nat, b: nat :| Covers(s, i, a, init, utf8) && GapAt(s, a, b) && SlotAt(s, b, j, Item(e), utf8);
      var more := PrependsOne(s, a, b, j, z, e, xs, utf8);
      ys := Prepends(s, i, a, z, init, more, utf8);
      assert slots == init + [Item(e)];
      ListedAppend(init, e, MeaningRest(xs, utf8));
    }
  }

  lemma PrependsOne(s: string, a: nat, b: nat, j: nat, z: nat, e: SExpr, xs: Members, utf8: string -> Bytes)
    returns (more: Members)
    requires GapAt(s, a, b) && FormAt(s, b, j, e, utf8)
    requires j <= z <= |s| && WellRest(xs, utf8) && SpellRest(xs) == s[j..z]
    ensures more.More? && WellRest(more, utf8) && a <= j && SpellRest(more) == s[a..z]
    ensures MeaningRest(more, utf8) == SPair(e, MeaningRest(xs, utf8))
  {
    hide Well, Spell, Meaning, Ends, IsGap;
    var f :| Well(f, utf8) && Meaning(f, utf8) == e && Spell(f) == s[b..j] && Ends(f, s[j..]);
    more := More(s[a..b], f, xs);
    EndsBefore(f, s, j, z);
    assert s[a..z] == s[a..b] + s[b..j] + s[j..z];
  }

  lemma ListedNone(tail: SExpr)
    ensures Listed([], tail) == tail
  {
  }

  lemma EndsBefore(f: Form, s: string, j: nat, z: nat)
    requires j < z <= |s| && Ends(f, s[j..])
    ensures Ends(f, s[j..z])
  {
    if f.Ticked? {
      EndsBefore(f.form, s, j, z);
    }
  }

  /** A list that is closed is a form. */
  lemma ClosesForm(s: string, k: nat, j: nat, i: nat, top: seq<Slot>, e: SExpr, utf8: string -> Bytes)
    requires i < |s| && k < |s| && s[k] == '(' && Covers(s, k + 1, j, top, utf8) && GapAt(s, j, i) && s[i] == ')'
    requires ListValue(top) == Some(e)
    ensures FormAt(s, k, i + 1, e, utf8)
  {
    hide WordValue, IsSpace, Listed, Covers;
    var xs: Members;
    if |top| >= 3 && top[|top| - 2].DotMark? {
      xs := DottedForm(s, k, j, i, top, utf8);
    } else {
      var closed := Closed(s[j..i]);
      assert s[j..i + 1] == s[j..i] + [s[i]];
      xs := Prepends(s, k + 1, j, i + 1, top, closed, utf8);
      NoDot(xs, top, closed);
    }
    var f := Group(xs);
    assert s[k..i + 1] == [s[k]] + s[k + 1..i + 1];
    assert Well(f, utf8) && Meaning(f, utf8) == e && Spell(f) == s[k..i + 1] && Ends(f, s[i + 1..]);
  }

  lemma NoDot(xs: Members, top: seq<Slot>, closed: Members)
    requires (top != [] ==> xs.More?) && (top == [] ==> xs == closed) && closed.Closed?
    ensures !xs.Dotted?
  {
  }

  lemma DottedForm(s: string, k: nat, j: nat, i: nat, top: seq<Slot>, utf8: string -> Bytes) returns (xs: Members)
    requires i < |s| && k < |s| && Covers(s, k + 1, j, top, utf8) && GapAt(s, j, i) && s[i] == ')'
    requires |top| >= 3 && top[|top| - 2].DotMark? && ListValue(top).Some?
    ensures xs.More? && WellRest(xs, utf8) && k + 1 <= i + 1 && SpellRest(xs) == s[k + 1..i + 1]
    ensures MeaningRest(xs, utf8) == ListValue(top).value
  {
    hide Listed, FormAt, GapAt, WellRest, SpellRest, MeaningRest;
    var n := |top|;
    var init, slots, e := top[..n - 1], top[..n - 2], top[n - 1].e;
    var a: nat, b: nat :| Covers(s, k + 1, a, init, utf8) && GapAt(s, a, b) && SlotAt(s, b, j, Item(e), utf8);
    assert init[..|init| - 1] == slots && init[|init| - 1] == DotMark;
    var c: nat, d: nat :| Covers(s, k + 1, c, slots, utf8) && GapAt(s, c, d) && SlotAt(s, d, a, DotMark, utf8);
    var dotted := DottedEnd(s, c, d, a, b, j, i, e, utf8);
    xs := Prepends(s, k + 1, c, i + 1, slots, dotted, utf8);
  }

  /** A dot, a form behind it, and the end of the list. */
  lemma DottedEnd(s: string, c: nat, d: nat, a: nat, b: nat, j: nat, i: nat, e: SExpr, utf8: string -> Bytes)
    returns (xs: Members)
    requires GapAt(s, c, d) && SlotAt(s, d, a, DotMark, utf8) && GapAt(s, a, b) && FormAt(s, b, j, e, utf8)
    requires GapAt(s, j, i) && i < |s| && s[i] == ')'
    ensures WellRest(xs, utf8) && c <= i + 1 && SpellRest(xs) == s[c..i + 1] && MeaningRest(xs, utf8) == e
  {
    hide Well, Spell, Meaning, Ends, IsGap;
    var f :| Well(f, utf8) && Meaning(f, utf8) == e && Spell(f) == s[b..j] && Ends(f, s[j..]);
    xs := Dotted(s[c..d], s[a..b], f, s[j..i]);
    assert s[c..i + 1] == s[c..d] + [s[d]] + s[a..b] + s[b..j] + s[j..i] + [s[i]];
  }

  // ----- one token more -----

  lemma Spacing(s: string, i: nat, p: Par, n: nat, utf8: string -> Bytes)
    requires Spelled(s, i, p, utf8) && GapAt(s, i, i + n)
    ensures Spelled(s, i + n, p, utf8)
  {
    hide Level;
    var j: nat :| GapAt(s, j, i) && Level(s, j, p, utf8);
    GapsJoin(s, j, i, i + n);
  }

  lemma {:induction false} SpacesAreGap(s: string)
    ensures IsGap(s[..Spaces(s)])
  {
    if s != "" && IsSpace(s[0]) {
      SpacesAreGap(s[1..]);
      assert s[..Spaces(s)] == [s[0]] + s[1..][..Spaces(s[1..])];
    }
  }

  lemma {:induction false} WordCharsAreWord(s: string)
    ensures var n := WordChars(s); (forall i | 0 <= i < n :: IsWordChar(s[i])) && EndsWord(s[n..])
  {
    if s != "" && IsWordChar(s[0]) {
      WordCharsAreWord(s[1..]);
      var n := WordChars(s[1..]);
      assert s[n + 1..] == s[1..][n..];
      assert forall i | 1 <= i < n + 1 :: s[i] == s[1..][i - 1];
    }
  }

  lemma {:induction false} QuotedHasNone(s: string)
    requires Quoted(s).Some?
    ensures var n := Quoted(s).value; s[n] == '"' && forall i | 0 <= i < n :: s[i] != '"'
  {
    if s[0] != '"' {
      QuotedHasNone(s[1..]);
      var n := Quoted(s[1..]).value;
      assert forall i | 1 <= i < n + 1 :: s[i] == s[1..][i - 1];
    }
  }

  /** The token t is what stands at i..j. */
  predicate IsTokenAt(s: string, i: nat, j: nat, t: Token) {
    i < j <= |s| &&
    match t
    case Space => GapAt(s, i, j)
    case Opening => j == i + 1 && s[i] == '('
    case Closing => j == i + 1 && s[i] == ')'
    case Dot => j == i + 1 && s[i] == '.'
    case Tick => j == i + 1 && s[i] == '\''
    case Word(w) => w == s[i..j] && (IsQuote(w) || (IsWord(w) && EndsWord(s[j..])))
  }

  /** The next token, and where it ends. */
  lemma TokenAt(s: string, i: nat) returns (j: nat)
    requires i < |s| && NextToken(s[i..]).Token?
    ensures IsTokenAt(s, i, j, NextToken(s[i..]).token) && NextToken(s[i..]).rest == s[j..]
  {
    hide Spaces, WordChars, Quoted, IsQuote, IsWord, EndsWord, IsGap;
    var t := s[i..];
    assert t[0] == s[i];
    if IsSpace(t[0]) {
      SpacesAreGap(t);
      SpacesOne(t);
      j := i + Spaces(t);
    } else if t[0] == '"' {
      QuoteAt(t);
      j := i + Quoted(t[1..]).value + 2;
    } else if IsWordChar(t[0]) {
      WordAt(t);
      j := i + WordChars(t);
    } else {
      j := i + 1;
    }
    Cut(s, i, j);
  }

  lemma Cut(s: string, i: nat, j: nat)
    requires i <= j <= |s|
    ensures s[i..][..j - i] == s[i..j] && s[i..][j - i..] == s[j..]
  {
  }

  lemma SpacesOne(t: string)
    requires t != "" && IsSpace(t[0])
    ensures Spaces(t) >= 1
  {
  }

  lemma QuoteAt(t: string)
    requires t != "" && t[0] == '"' && Quoted(t[1..]).Some?
    ensures var n := Quoted(t[1..]).value + 2; n <= |t| && IsQuote(t[..n])
  {
    hide Quoted;
    QuotedHasNone(t[1..]);
    var n := Quoted(t[1..]).value + 2;
    assert forall k | 1 <= k < n - 1 :: t[k] == t[1..][k - 1];
    assert t[n - 1] == t[1..][n - 2];
  }

  lemma WordAt(t: string)
    requires t != "" && IsWordChar(t[0])
    ensures WordChars(t) >= 1 && IsWord(t[..WordChars(t)]) && EndsWord(t[WordChars(t)..])
  {
    hide IsWordChar;
    WordCharsAreWord(t);
  }

  lemma SettlesPlaced(p: Par, e: SExpr, q: Par)
    requires Settled(Append(p, Item(e))) == Some(q)
    requires Shaped(p)
    ensures q == Placed(p, e)
    decreases Depth(p)
  {
    var r := Append(p, Item(e));
    if p.Inner? && p.top == [TickMark] {
      assert r.top == [TickMark, Item(e)];
      UnticksOn(p, e, q);
    } else {
      assert p.top != [] ==> r.top[0] == p.top[0];
    }
  }

  /** A quote waits alone. */
  predicate Shaped(p: Par)
    decreases Depth(p)
  {
    && (p.top != [] && p.top[0].TickMark? ==> p.Inner? && p.top == [TickMark])
    && (p.Inner? ==> Shaped(p.below))
  }

  lemma UnticksOn(p: Par, e: SExpr, q: Par)
    requires p.Inner? && p.top == [TickMark] && Shaped(p) && Settled(Append(p, Item(e))) == Some(q)
    ensures q == Placed(p, e)
    decreases Depth(p), 0
  {
    assert Append(p, Item(e)).top == [TickMark, Item(e)];
    assert Untick(Append(p, Item(e))) == Untick(Append(p.below, Item(SPair(Symbol("q"), e))));
    SettlesPlaced(p.below, SPair(Symbol("q"), e), q);
  }

  lemma {:induction false} SpelledShaped(s: string, i: nat, p: Par, utf8: string -> Bytes)
    requires Spelled(s, i, p, utf8)
    ensures Shaped(p)
    decreases Depth(p)
  {
    hide GapAt;
    var j: nat :| GapAt(s, j, i) && Level(s, j, p, utf8);
    if p.Inner? {
      var k: nat :| k < |s| && Spelled(s, k, p.below, utf8) && Opened(s, k, j, p.top, utf8);
      SpelledShaped(s, k, p.below, utf8);
    } else if p.top != [] {
      FirstNoTick(s, 0, j, p.top, utf8);
    }
  }

  lemma {:induction false} FirstNoTick(s: string, i: nat, j: nat, slots: seq<Slot>, utf8: string -> Bytes)
    requires Covers(s, i, j, slots, utf8) && slots != []
    ensures !slots[0].TickMark?
    decreases |slots|
  {
    hide GapAt, FormAt;
    var init := slots[..|slots| - 1];
    var a: nat, b: nat :| Covers(s, i, a, init, utf8) && GapAt(s, a, b) && SlotAt(s, b, j, slots[|slots| - 1], utf8);
    if init != [] {
      FirstNoTick(s, i, a, init, utf8);
    }
  }

  lemma Stepped(s: string, i: nat, j: nat, p: Par, t: Token, q: Par, utf8: string -> Bytes)
    requires Spelled(s, i, p, utf8) && Parser.Step(p, t, utf8) == Some(q)
    requires IsTokenAt(s, i, j, t)
    ensures Spelled(s, j, q, utf8)
  {
    hide Spelled, FormAt, WordValue, ListValue, Settled;
    SpelledShaped(s, i, p, utf8);
    match t {
      case Space =>
        SettlesSame(p, q);
        Spacing(s, i, p, j - i, utf8);
      case Opening =>
        SettlesSame(Inner([], p), q);
        Opens(s, i, p, [], utf8);
      case Tick =>
        SettlesSame(Inner([TickMark], p), q);
        Opens(s, i, p, [TickMark], utf8);
      case Dot =>
        SettlesDot(p, q);
        Extends(s, i, j, p, DotMark, utf8);
      case Word(w) =>
        LeafAt(s, i, j, w, utf8);
        SettlesPlaced(p, WordValue(w, utf8).value, q);
        PlacesForm(s, i, j, p, WordValue(w, utf8).value, utf8);
      case Closing =>
        var e := ListValue(p.top).value;
        var k := Closes(s, i, p, e, utf8);
        SettlesPlaced(p.below, e, q);
        PlacesForm(s, k, j, p.below, e, utf8);
    }
  }

  lemma SettlesSame(p: Par, q: Par)
    requires Settled(p) == Some(q) && Shaped(p)
    ensures q == p
  {
  }

  lemma SettlesDot(p: Par, q: Par)
    requires p.top != [] && Shaped(p) && Settled(Append(p, DotMark)) == Some(q)
    ensures q == Append(p, DotMark) && !(p.Inner? && p.top == [TickMark])
  {
    assert Append(p, DotMark).top[0] == p.top[0];
  }

  lemma Opens(s: string, i: nat, p: Par, top: seq<Slot>, utf8: string -> Bytes)
    requires i < |s| && Spelled(s, i, p, utf8)
    requires (top == [] && s[i] == '(') || (top == [TickMark] && s[i] == '\'')
    ensures Spelled(s, i + 1, Inner(top, p), utf8)
  {
    NoGap(s, i + 1);
    assert Opened(s, i, i + 1, top, utf8);
    assert Level(s, i + 1, Inner(top, p), utf8);
  }

  lemma LeafAt(s: string, i: nat, j: nat, w: string, utf8: string -> Bytes)
    requires i < j <= |s| && w == s[i..j] && (IsQuote(w) || (IsWord(w) && EndsWord(s[j..])))
    requires WordValue(w, utf8).Some?
    ensures FormAt(s, i, j, WordValue(w, utf8).value, utf8)
  {
    hide WordValue, IsQuote, IsWord, EndsWord;
    var f := Leaf(w);
    assert Well(f, utf8) && Meaning(f, utf8) == WordValue(w, utf8).value && Spell(f) == s[i..j] && Ends(f, s[j..]);
  }

  lemma Closes(s: string, i: nat, p: Par, e: SExpr, utf8: string -> Bytes) returns (k: nat)
    requires p.Inner? && Spelled(s, i, p, utf8) && i < |s| && s[i] == ')' && p.top != [TickMark]
    requires ListValue(p.top) == Some(e)
    ensures Spelled(s, k, p.below, utf8) && FormAt(s, k, i + 1, e, utf8)
  {
    hide GapAt, FormAt, Covers, ListValue;
    var j: nat :| GapAt(s, j, i) && Level(s, j, p, utf8);
    k :| k < |s| && Spelled(s, k, p.below, utf8) && Opened(s, k, j, p.top, utf8);
    ClosesForm(s, k, j, i, p.top, e, utf8);
  }

  // ----- the whole text -----

  lemma {:induction false} ScanSpells(s: string, i: nat, p: Par, q: Par, utf8: string -> Bytes)
    requires i <= |s| && Spelled(s, i, p, utf8) && Scan(s[i..], p, utf8) == Some(q)
    ensures Spelled(s, |s|, q, utf8)
    decreases |s| - i
  {
    hide Spelled, Parser.Step, NextToken;
    if i < |s| {
      var j := TokenAt(s, i);
      var t := NextToken(s[i..]).token;
      var next := Parser.Step(p, t, utf8).value;
      Stepped(s, i, j, p, t, next, utf8);
      ScanSpells(s, j, next, q, utf8);
    }
  }

  lemma WholeSpells(s: string, p: Par, e: SExpr, utf8: string -> Bytes) returns (f: Form)
    requires Spelled(s, |s|, p, utf8) && Whole(p) == Some(e)
    ensures Spells(s, f, utf8) && Meaning(f, utf8) == e
  {
    hide Well, Meaning, Spell, Ends, IsGap;
    var j: nat :| GapAt(s, j, |s|) && Level(s, j, p, utf8);
    assert p.top[..0] == [];
    var a: nat, b: nat :| Covers(s, 0, a, [], utf8) && GapAt(s, a, b) && SlotAt(s, b, j, p.top[0], utf8);
    f :| Well(f, utf8) && Meaning(f, utf8) == e && Spell(f) == s[b..j] && Ends(f, s[j..]);
    assert s == s[0..b] + s[b..j] + s[j..|s|];
  }

  /** The parser reads exactly the well-formed texts, each as what it means. */
  lemma ParsesExactly(s: string, e: SExpr, utf8: string -> Bytes)
    ensures Parse(s, utf8) == Some(e) <==> exists f :: Spells(s, f, utf8) && Meaning(f, utf8) == e
  {
    hide Scan, Meaning, Well;
    if Parse(s, utf8) == Some(e) {
      assert s[0..] == s;
      NothingSpelled(s, utf8);
      ScanSpells(s, 0, Bottom([]), Scan(s, Bottom([]), utf8).value, utf8);
      var f := WholeSpells(s, Scan(s, Bottom([]), utf8).value, e, utf8);
    }
    if f :| Spells(s, f, utf8) && Meaning(f, utf8) == e {
      SpelledParses(s, f, utf8);
    }
  }

  lemma NothingSpelled(s: string, utf8: string -> Bytes)
    ensures Spelled(s, 0, Bottom([]), utf8)
  {
    NoGap(s, 0);
    assert Covers(s, 0, 0, [], utf8);
    assert Level(s, 0, Bottom([]), utf8);
  }

  // ----- printing -----

  /** A name that reads as a symbol. */
  predicate IsName(name: string) {
    IsSymbol(name) && name != "nil" && !IsHex(name) && !IsInt(name)
  }

  predicate Readable(e: SExpr) {
    match e
    case SAtom(_) => true
    case Symbol(name) => IsName(name)
    case SPair(l, r) => Readable(l) && Readable(r)
  }

  /** An expression as it is usually written. */
  function FormOf(e: SExpr): Form {
    match e
    case SAtom(a) => Leaf(ShowAtom(a))
    case Symbol(name) => Leaf(name)
    case SPair(l, r) => Group(More("", FormOf(l), RestOf(r)))
  }

  function RestOf(e: SExpr): Members {
    match e
    case SPair(l, r) => More(" ", FormOf(l), RestOf(r))
    case SAtom(a) => if a == [] then Closed("") else Dotted(" ", " ", Leaf(ShowAtom(a)), "")
    case Symbol(name) => Dotted(" ", " ", Leaf(name), "")
  }

  lemma SymbolCharReads(c: char)
    requires IsSymbolChar(c) || c == '@'
    ensures IsWordChar(c) && c != '"'
  {
  }

  lemma NameIsWord(name: string)
    requires IsSymbol(name)
    ensures IsWord(name) && name[0] != '"'
  {
    hide IsSymbolChar, IsWordChar;
    forall i | 0 <= i < |name|
      ensures IsWordChar(name[i]) && name[i] != '"'
    {
      if i > 0 {
        assert name[1..][i - 1] == name[i];
      }
      SymbolCharReads(name[i]);
    }
  }

  lemma NameReads(name: string, utf8: string -> Bytes)
    requires IsName(name)
    ensures IsWord(name) && WordValue(name, utf8) == Some(Symbol(name))
  {
    hide IsSymbol, IsHex, IsInt, IsWord;
    NameIsWord(name);
  }

  lemma {:induction false} FormMeans(e: SExpr, utf8: string -> Bytes)
    requires Readable(e)
    ensures Well(FormOf(e), utf8) && Meaning(FormOf(e), utf8) == e
    decreases e, 0
  {
    hide WordValue, ShowAtom, IsName;
    match e {
      case SAtom(a) => AtomReads(a, utf8);
      case Symbol(name) => NameReads(name, utf8);
      case SPair(l, r) =>
        FormMeans(l, utf8);
        RestMeans(r, utf8);
        EndsRest(FormOf(l), r);
    }
  }

  lemma {:induction false} RestMeans(e: SExpr, utf8: string -> Bytes)
    requires Readable(e)
    ensures WellRest(RestOf(e), utf8) && MeaningRest(RestOf(e), utf8) == e
    decreases e, 0
  {
    hide WordValue, ShowAtom, IsName;
    match e {
      case SAtom(a) => AtomReads(a, utf8);
      case Symbol(name) => NameReads(name, utf8);
      case SPair(l, r) =>
        FormMeans(l, utf8);
        RestMeans(r, utf8);
        EndsRest(FormOf(l), r);
    }
  }

  lemma EndsRest(f: Form, e: SExpr)
    ensures Ends(f, SpellRest(RestOf(e)))
  {
    hide ShowAtom;
    if f.Ticked? {
      EndsRest(f.form, e);
    }
  }

  /** Reading undoes writing, for every expression whose names can be read. */
  lemma ParseUndoesWriting(e: SExpr, utf8: string -> Bytes)
    requires Readable(e)
    ensures Parse(Spell(FormOf(e)), utf8) == Some(e)
  {
    hide Parse, Well, Spell, Meaning, FormOf;
    var f := FormOf(e);
    FormMeans(e, utf8);
    assert IsGap("") && Spell(f) == "" + Spell(f) + "";
    assert Spells(Spell(f), f, utf8);
    SpelledParses(Spell(f), f, utf8);
  }

  lemma {:induction false} ShowIsForm(e: Element)
    requires IsBll(e)
    ensures Show(e) == Spell(FormOf(FromBll(e)))
    ensures ShowTail(e) == SpellRest(RestOf(FromBll(e)))
  {
    hide ShowAtom;
    if e.Cons? {
      ShowIsForm(e.left);
      ShowIsForm(e.right);
    }
  }

  lemma {:induction false} BllIsReadable(e: Element)
    requires IsBll(e)
    ensures Readable(FromBll(e))
  {
    if e.Cons? {
      BllIsReadable(e.left);
      BllIsReadable(e.right);
    }
  }

  /** Reading undoes printing, for every bll value. */
  lemma ParseUndoesShow(e: Element, utf8: string -> Bytes)
    requires IsBll(e)
    ensures Parse(Show(e), utf8) == Some(FromBll(e)) && ToBll(FromBll(e)) == Some(e)
  {
    hide Parse, Show, Spell, FormOf, Readable;
    ShowIsForm(e);
    BllIsReadable(e);
    ParseUndoesWriting(FromBll(e), utf8);
    FromBllRoundTrip(e);
  }

  // ----- words -----

  /** Hexadecimal words read as bytes, in either case. */
  lemma HexWord(h: string, b: Bytes, utf8: string -> Bytes)
    requires h != "" && forall i | 0 <= i < |h| :: IsHexDigit(h[i])
    ensures WordValue("0x" + h, utf8) == Some(SAtom(b)) <==> Lower(h) == Hex(b)
  {
    hide FromHex, IsHexDigit;
    var w := "0x" + h;
    assert w[..2] == "0x" && w[2..] == h;
    assert forall i | 2 <= i < |w| :: w[i] == h[i - 2];
    assert w[0] == '0' && "nil"[0] == 'n';
    assert IsHex(w) && w != "nil";
    HexReading(h, b);
    assert WordValue(w, utf8) == if FromHex(h).None? then None else Some(SAtom(FromHex(h).value));
  }

  /** Decimal words read as the integers they print, leading zeros or not. */
  lemma DecimalWord(k: nat, n: nat, utf8: string -> Bytes)
    ensures WordValue(Padded(k, n), utf8) == Some(SAtom(IntToBytes(n)))
    ensures WordValue("-" + Padded(k, n), utf8) == Some(SAtom(IntToBytes(0 - n)))
  {
    hide IntToBytes, Padded, ReadNatural;
    PaddedReads(k, n);
    var s := Padded(k, n);
    var w := "-" + s;
    assert w[1..] == s && IsDigit(s[0]);
    assert |s| >= 2 ==> s[..2][1] == s[1];
    assert w[..2][0] == '-';
  }

  /** Quoted text reads as its encoding. */
  lemma QuotedWord(t: string, utf8: string -> Bytes)
    ensures WordValue("\"" + t + "\"", utf8) == Some(SAtom(utf8(t)))
  {
    var w := "\"" + t + "\"";
    assert w[1..|w| - 1] == t;
    assert w[0] == '"' && w[..2][0] == '"';
  }
}
