/** SExpr.parse and the printing of bll values (element.py). */
module Parser {
  import opened Integers
  import opened Elements
  import opened AtomText
  import opened Symbll

  // ----- tokens -----

  datatype Token = Space | Opening | Closing | Dot | Tick | Word(text: string)

  predicate IsSpace(c: char) {
    c == ' ' || '\t' <= c <= '\r' || '\U{1c}' <= c <= '\U{1f}'
  }

  predicate IsWordChar(c: char) {
    c != '"' && c != '\'' && c != '(' && c != ')' && c != '.' && !IsSpace(c)
  }

  function Spaces(s: string): (n: nat)
    ensures n <= |s|
  {
    if s == "" || !IsSpace(s[0]) then 0 else 1 + Spaces(s[1..])
  }

  function WordChars(s: string): (n: nat)
    ensures n <= |s|
  {
    if s == "" || !IsWordChar(s[0]) then 0 else 1 + WordChars(s[1..])
  }

  /** The characters before the next quote mark, if there is one. */
  function Quoted(s: string): (n: Option<nat>)
    ensures n.Some? ==> n.value < |s|
  {
    if s == "" then None
    else if s[0] == '"' then Some(0)
    else
      var rest := Quoted(s[1..]);
      if rest.None? then None else Some(1 + rest.value)
  }

  datatype Scanned = Token(token: Token, rest: string) | Unreadable

  /** get_token: the longest token at the start. */
  function NextToken(s: string): (t: Scanned)
    requires s != ""
    ensures t.Token? ==> |t.rest| < |s|
  {
    if IsSpace(s[0]) then Scanned.Token(Space, s[Spaces(s)..])
    else if s[0] == '(' then Scanned.Token(Opening, s[1..])
    else if s[0] == ')' then Scanned.Token(Closing, s[1..])
    else if s[0] == '.' then Scanned.Token(Dot, s[1..])
    else if s[0] == '\'' then Scanned.Token(Tick, s[1..])
    else if s[0] == '"' then
      var n := Quoted(s[1..]);
      if n.None? then Unreadable else Scanned.Token(Word(s[..n.value + 2]), s[n.value + 2..])
    else Scanned.Token(Word(s[..WordChars(s)]), s[WordChars(s)..])
  }

  // ----- atoms -----

  predicate IsSymbolChar(c: char) {
    'a' <= c <= 'z' || 'A' <= c <= 'Z' || IsDigit(c) || c in "_<>=~&|^+*/%-"
  }

  predicate AllSymbolChars(s: string) {
    s != "" && forall i | 0 <= i < |s| :: IsSymbolChar(s[i])
  }

  /** re_sym. */
  predicate IsSymbol(s: string) {
    AllSymbolChars(s) || (s != "" && s[0] == '@' && AllSymbolChars(s[1..]))
  }

  /** What a word stands for; None where the parser raises an exception. The
      encoding of quoted text may be any function. */
  function WordValue(text: string, utf8: string -> Bytes): Option<SExpr> {
    if text == "nil" then Some(SNil)
    else if IsHex(text) then
      var b := FromHex(text[2..]);
      if b.None? then None else Some(SAtom(b.value))
    else if IsInt(text) then Some(SAtom(IntToBytes(ReadInt(text))))
    else if |text| >= 2 && text[0] == '"' then Some(SAtom(utf8(text[1..|text| - 1])))
    else if IsSymbol(text) then Some(Symbol(text))
    else None
  }

  // ----- the stack of open lists -----

  datatype Slot = Item(e: SExpr) | DotMark | TickMark

  /** parstack: the innermost list outermost. */
  datatype Par = Bottom(top: seq<Slot>) | Inner(top: seq<Slot>, below: Par)

  function Depth(p: Par): nat {
    if p.Bottom? then 0 else 1 + Depth(p.below)
  }

  function Append(p: Par, slot: Slot): (r: Par)
    ensures Depth(r) == Depth(p)
  {
    match p
    case Bottom(top) => Bottom(top + [slot])
    case Inner(top, below) => Inner(top + [slot], below)
  }

  predicate AllItems(slots: seq<Slot>) {
    forall i | 0 <= i < |slots| :: slots[i].Item?
  }

  function Listed(slots: seq<Slot>, tail: SExpr): SExpr
    requires AllItems(slots)
  {
    if slots == [] then tail else SPair(slots[0].e, Listed(slots[1..], tail))
  }

  /** list_to_element; None where its assertion fails. */
  function ListValue(slots: seq<Slot>): Option<SExpr> {
    if |slots| >= 3 && slots[|slots| - 2].DotMark? then
      if slots[|slots| - 1].Item? && AllItems(slots[..|slots| - 2]) then
        Some(Listed(slots[..|slots| - 2], slots[|slots| - 1].e))
      else None
    else if AllItems(slots) then Some(Listed(slots, SNil))
    else None
  }

  function Untick(p: Par): Option<Par>
    decreases Depth(p)
  {
    if |p.top| > 1 && p.top[0].TickMark? then
      if p.Inner? && |p.top| == 2 && p.top[1].Item? then
        Untick(Append(p.below, Item(SPair(Symbol("q"), p.top[1].e))))
      else None
    else Some(p)
  }

  /** What follows every token: ticks close, and a dot has one element after it. */
  function Settled(p: Par): Option<Par> {
    var u := Untick(p);
    if u.None? then None
    else if |u.value.top| > 3 && u.value.top[|u.value.top| - 3].DotMark? then None
    else u
  }

  function Take(p: Par, t: Token, utf8: string -> Bytes): Option<Par> {
    match t
    case Space => Some(p)
    case Opening => Some(Inner([], p))
    case Closing =>
      if p.Bottom? || (p.top != [] && (p.top[|p.top| - 1].DotMark? || p.top[0].TickMark?)) then None
      else
        var e := ListValue(p.top);
        if e.None? then None else Some(Append(p.below, Item(e.value)))
    case Dot => if p.top == [] then None else Some(Append(p, DotMark))
    case Tick => Some(Inner([TickMark], p))
    case Word(text) =>
      var e := WordValue(text, utf8);
      if e.None? then None else Some(Append(p, Item(e.value)))
  }

  function Step(p: Par, t: Token, utf8: string -> Bytes): Option<Par> {
    var q := Take(p, t, utf8);
    if q.None? then None else Settled(q.value)
  }

  function Scan(s: string, p: Par, utf8: string -> Bytes): Option<Par>
    decreases |s|
  {
    if s == "" then Some(p)
    else
      var t := NextToken(s);
      if t.Unreadable? then None
      else
        var q := Step(p, t.token, utf8);
        if q.None? then None else Scan(t.rest, q.value, utf8)
  }

  /** What is left at the end: exactly one entry. */
  function Whole(p: Par): Option<SExpr> {
    if p.Bottom? && |p.top| == 1 && p.top[0].Item? then Some(p.top[0].e) else None
  }

  /** SExpr.parse; None where it raises an exception. */
  function Parse(s: string, utf8: string -> Bytes): Option<SExpr> {
    var p := Scan(s, Bottom([]), utf8);
    if p.None? then None else Whole(p.value)
  }

  /** The loop of SExpr.parse. */
  method ParseText(s: string, utf8: string -> Bytes) returns (r: Option<SExpr>)
    ensures r == Parse(s, utf8)
  {
    hide Step, NextToken;
    var left, p := s, Bottom([]);
    while left != ""
      invariant Scan(left, p, utf8) == Scan(s, Bottom([]), utf8)
      decreases |left|
    {
      var t := NextToken(left);
      if t.Unreadable? {
        return None;
      }
      var q := Step(p, t.token, utf8);
      if q.None? {
        return None;
      }
      left, p := t.rest, q.value;
    }
    return Whole(p);
  }

  // ----- printing -----

  /** Atom.__str__. */
  function ShowAtom(a: Bytes): string {
    if a == [] then "nil"
    else if SimpleNum(a) then Decimal(BytesToInt(a))
    else "0x" + Hex(a)
  }

  /** Cons.__str__, for pairs without function objects. */
  function Show(e: Element): string
    requires IsBll(e)
  {
    match e
    case Atom(a) => ShowAtom(a)
    case Cons(l, r) => "(" + Show(l) + ShowTail(r)
  }

  /** The rest of a printed list. */
  function ShowTail(e: Element): string
    requires IsBll(e)
  {
    match e
    case Cons(l, r) => " " + Show(l) + ShowTail(r)
    case Atom(a) => if a == [] then ")" else " . " + ShowAtom(a) + ")"
  }

  // ----- words -----

  predicate IsWord(s: string) {
    s != "" && forall i | 0 <= i < |s| :: IsWordChar(s[i])
  }

  predicate EndsWord(rest: string) {
    rest == "" || !IsWordChar(rest[0])
  }

  lemma {:induction false} WordLength(s: string, rest: string)
    requires forall i | 0 <= i < |s| :: IsWordChar(s[i])
    requires EndsWord(rest)
    ensures WordChars(s + rest) == |s|
  {
    if s == "" {
      assert s + rest == rest;
    } else {
      assert (s + rest)[1..] == s[1..] + rest;
      WordLength(s[1..], rest);
    }
  }

  lemma DigitsAreWordChars(s: string)
    requires AllDigits(s)
    ensures forall i | 0 <= i < |s| :: IsWordChar(s[i])
  {
  }

  /** A printed atom is a word that reads as the atom. */
  lemma AtomReads(a: Bytes, utf8: string -> Bytes)
    ensures IsWord(ShowAtom(a)) && WordValue(ShowAtom(a), utf8) == Some(SAtom(a))
  {
    if a == [] {
    } else if SimpleNum(a) {
      DecimalReads(a, utf8);
    } else {
      HexReads(a, utf8);
    }
  }

  lemma DecimalReads(a: Bytes, utf8: string -> Bytes)
    requires a != [] && SimpleNum(a)
    ensures var s := Decimal(BytesToInt(a)); IsWord(s) && WordValue(s, utf8) == Some(SAtom(a))
  {
    var i := BytesToInt(a);
    var s := Decimal(i);
    SimpleNumIsMinimal(a);
    DecimalRoundTrip(i);
    hide BytesToInt, IntToBytes, SimpleNum, Natural;
    DigitsAreWordChars(Natural(if i < 0 then -i else i));
    assert IsDigit(s[0]) || s[0] == '-';
    assert |s| >= 2 ==> IsDigit(s[1]);
    assert |s| >= 2 ==> s[..2][1] == s[1];
  }

  lemma HexReads(a: Bytes, utf8: string -> Bytes)
    requires a != []
    ensures var s := "0x" + Hex(a); IsWord(s) && WordValue(s, utf8) == Some(SAtom(a))
  {
    HexRoundTrip(a);
    var s := "0x" + Hex(a);
    assert s[2..] == Hex(a);
    assert forall i | 2 <= i < |s| :: IsHexDigit(s[i]) by {
      assert forall i | 2 <= i < |s| :: s[i] == Hex(a)[i - 2];
    }
    assert s[..2] == "0x";
    assert s[0] == '0';
  }

  // ----- reading back -----

  /** An element can follow in the innermost list. */
  predicate Ready(p: Par) {
    && (p.top == [] || !p.top[0].TickMark?)
    && !(|p.top| >= 3 && p.top[|p.top| - 2].DotMark?)
  }

  /** An element added to a list that is ready for it stays. */
  lemma Added(p: Par, e: SExpr)
    requires Ready(p)
    ensures Settled(Append(p, Item(e))) == Some(Append(p, Item(e)))
  {
    var top := p.top + [Item(e)];
    assert top[0] == if p.top == [] then Item(e) else p.top[0];
    assert |top| >= 3 ==> top[|top| - 3] == p.top[|p.top| - 2];
  }

  /** Tokens that change nothing but the innermost list. */
  lemma Unchanged(p: Par)
    requires p.top == [] || !p.top[0].TickMark?
    requires !(|p.top| > 3 && p.top[|p.top| - 3].DotMark?)
    ensures Settled(p) == Some(p)
  {
  }

  lemma ScanToken(s: string, p: Par, t: Token, rest: string, q: Par, utf8: string -> Bytes)
    requires s != "" && NextToken(s) == Scanned.Token(t, rest)
    requires Step(p, t, utf8) == Some(q)
    ensures Scan(s, p, utf8) == Scan(rest, q, utf8)
  {
    hide Step, NextToken;
  }

  lemma OpeningScanned(s: string, p: Par, utf8: string -> Bytes)
    ensures Scan("(" + s, p, utf8) == Scan(s, Inner([], p), utf8)
  {
    hide Scan;
    assert ("(" + s)[1..] == s;
    ScanToken("(" + s, p, Opening, s, Inner([], p), utf8);
  }

  lemma {:induction false} ListedAppend(slots: seq<Slot>, e: SExpr, tail: SExpr)
    requires AllItems(slots)
    ensures Listed(slots + [Item(e)], tail) == Listed(slots, SPair(e, tail))
  {
    if slots == [] {
      assert slots + [Item(e)] == [Item(e)];
      assert [Item(e)][1..] == [];
    } else {
      assert (slots + [Item(e)])[1..] == slots[1..] + [Item(e)];
      ListedAppend(slots[1..], e, tail);
    }
  }

  lemma DotScanned(s: string, p: Par, utf8: string -> Bytes)
    requires p.top != [] && Settled(Append(p, DotMark)) == Some(Append(p, DotMark))
    ensures Scan("." + s, p, utf8) == Scan(s, Append(p, DotMark), utf8)
  {
    hide Scan, Settled;
    assert ("." + s)[1..] == s;
    ScanToken("." + s, p, Dot, s, Append(p, DotMark), utf8);
  }
}
