/** The bit mask printer and parser of src/util.c. A mask is the set of its bit numbers. */
module Bitmasks {

  import opened Options

  // --------------------------------------------------------------------------------------------
  // Numbers

  const DIGITS: string := "0123456789"

  /** "%d" for numbers of at most two digits; masks have no others. */
  function Dec(n: nat): (s: string)
    ensures 1 <= |s| <= 2
  {
    if n < 10 then [DIGITS[n]] else [DIGITS[n / 10 % 10], DIGITS[n % 10]]
  }

  predicate IsDigit(c: char) { '0' <= c <= '9' }

  predicate IsSpace(c: char) { c == ' ' || '\t' <= c <= '\r' }

  const INT_MAX: int := 0x7fff_ffff

  /** Value of the digits at the start of `s`, continuing `acc`, cut off at the largest int. */
  function Digits(s: string, acc: nat): nat
    decreases |s|
  {
    if s == "" || !IsDigit(s[0]) then acc
    else
      var v := 10 * acc + (s[0] as int - '0' as int);
      Digits(s[1..], if v > INT_MAX then INT_MAX else v)
  }

  function SkipSpace(s: string): string
    decreases |s|
  {
    if s != "" && IsSpace(s[0]) then SkipSpace(s[1..]) else s
  }

  /** `str_to_int` for a token without '-': spaces, an optional plus sign, and at least one digit. */
  function ToInt(tok: string): Option<nat> {
    var s := SkipSpace(tok);
    var t := if s != "" && s[0] == '+' then s[1..] else s;
    if t == "" || !IsDigit(t[0]) then None else Some(Digits(t, 0))
  }

  lemma DigitValue(n: nat)
    requires n < 10
    ensures IsDigit(DIGITS[n]) && DIGITS[n] as int - '0' as int == n
  {
  }

  lemma DigitsStep(c: char, rest: string, acc: nat, n: nat)
    requires n < 10 && c == DIGITS[n] && acc < 10
    ensures Digits([c] + rest, acc) == Digits(rest, 10 * acc + n)
  {
    DigitValue(n);
    assert ([c] + rest)[1..] == rest;
  }

  lemma ToIntOfDigits(s: string)
    requires s != "" && IsDigit(s[0])
    ensures ToInt(s) == Some(Digits(s, 0))
  {
    assert SkipSpace(s) == s;
  }

  lemma DecIsDigits(n: nat)
    ensures forall k :: 0 <= k < |Dec(n)| ==> IsDigit(Dec(n)[k])
  {
    if n < 10 {
      DigitValue(n);
    } else {
      DigitValue(n / 10 % 10);
      DigitValue(n % 10);
    }
  }

  lemma OneDigit(c: char, acc: nat, n: nat)
    requires n < 10 && c == DIGITS[n] && acc < 10
    ensures Digits([c], acc) == 10 * acc + n
  {
    assert [c] == [c] + "";
    DigitsStep(c, "", acc, n);
  }

  lemma TwoDigits(c: char, d: char, m: nat, n: nat)
    requires m < 10 && n < 10 && c == DIGITS[m] && d == DIGITS[n]
    ensures Digits([c, d], 0) == 10 * m + n
  {
    assert [c, d] == [c] + [d];
    DigitsStep(c, [d], 0, m);
    OneDigit(d, m, n);
  }

  lemma DecDigits(n: nat)
    requires n < 100
    ensures Digits(Dec(n), 0) == n
  {
    if n < 10 {
      OneDigit(DIGITS[n], 0, n);
    } else {
      TwoDigits(DIGITS[n / 10], DIGITS[n % 10], n / 10, n % 10);
    }
  }

  lemma DecToInt(n: nat)
    requires n < 100
    ensures ToInt(Dec(n)) == Some(n)
  {
    DecIsDigits(n);
    DecDigits(n);
    ToIntOfDigits(Dec(n));
  }

  // --------------------------------------------------------------------------------------------
  // strtok_r

  function SkipDelimiters(s: string, d: char): (t: string)
    ensures |t| <= |s| && (t != "" ==> t[0] != d)
    decreases |s|
  {
    if s != "" && s[0] == d then SkipDelimiters(s[1..], d) else s
  }

  /** Length of the prefix free of `d`. */
  function Span(s: string, d: char): (n: nat)
    ensures n <= |s| && (forall k :: 0 <= k < n ==> s[k] != d) && (n < |s| ==> s[n] == d)
    decreases |s|
  {
    if s == "" || s[0] == d then 0 else 1 + Span(s[1..], d)
  }

  /** The next token and the text behind it. */
  function NextToken(s: string, d: char): (r: Option<(string, string)>)
    ensures r.Some? ==> |r.value.1| < |s|
  {
    var t := SkipDelimiters(s, d);
    if t == "" then None
    else
      var n := Span(t, d);
      Some((t[..n], if n < |t| then t[n + 1..] else ""))
  }

  lemma TokenBeforeDelimiter(t: string, rest: string, d: char)
    requires t != "" && d !in t
    ensures NextToken(t + [d] + rest, d) == Some((t, rest))
  {
    var s := t + [d] + rest;
    assert forall k :: 0 <= k < |t| ==> s[k] == t[k] && t[k] in t;
    assert s[|t|] == d;
    var n := Span(s, d);
    assert n == |t|;
    assert s[..n] == t && s[n + 1..] == rest;
  }

  lemma LastToken(t: string, d: char)
    requires t != "" && d !in t
    ensures NextToken(t, d) == Some((t, ""))
  {
    assert forall k :: 0 <= k < |t| ==> t[k] in t;
    var n := Span(t, d);
    assert n == |t|;
    assert t[..n] == t;
  }

  // --------------------------------------------------------------------------------------------
  // Parser

  /** The numbers from `lo` to `hi`. */
  function Range(lo: nat, hi: int): (r: set<nat>)
    ensures forall k: nat :: k in r <==> lo <= k <= hi
    decreases hi - lo + 1
  {
    if hi < lo then {} else Range(lo, hi - 1) + {hi}
  }

  function AllBits(len: nat): set<nat> { Range(0, len - 1) }

  /** Bits set by one comma-separated token. */
  function TokenBits(tok: string, len: nat, base: nat): (bits: set<nat>)
    requires base <= 1
    ensures forall k :: k in bits ==> k < len
  {
    match NextToken(tok, '-')
    case None => {}
    case Some((first, rest)) =>
      match ToInt(first)
      case None => {}
      case Some(x) =>
        var a := x - base;
        (if 0 <= a < len then {a as nat} else {}) +
        match NextToken(rest, '-')
        case None => {}
        case Some((second, _)) =>
          match ToInt(second)
          case None => {}
          case Some(y) =>
            var b := y - base;
            if a < b < len then Range(a + 1, b) else {}
  }

  /** What a token asks for: its first number, or a number in its run, which must end below `top`. */
  predicate Asks(tok: string, n: int, top: int) {
    match NextToken(tok, '-')
    case None => false
    case Some((first, rest)) =>
      && ToInt(first).Some?
      && (n == ToInt(first).value || (ToInt(first).value < n && RunEnd(rest).Some? && n <= RunEnd(rest).value < top))
  }

  /** The second number of a token, if there is one. */
  function RunEnd(rest: string): Option<nat> {
    match NextToken(rest, '-')
    case None => None
    case Some((second, _)) => ToInt(second)
  }

  lemma TokenAsks(tok: string, len: nat, base: nat)
    requires base <= 1
    ensures forall k: nat :: k in TokenBits(tok, len, base) <==> k < len && Asks(tok, k + base, len + base)
  {
  }

  /** The tokens of a text. */
  function Tokens(s: string, d: char): seq<string>
    decreases |s|
  {
    match NextToken(s, d)
    case None => []
    case Some((tok, rest)) => [tok] + Tokens(rest, d)
  }

  /** A delimiter ends a token, and one at the start of a text, or behind another, does nothing. */
  lemma TokensSplit(tok: string, rest: string, d: char)
    requires d !in tok
    ensures Tokens(tok + [d] + rest, d) == (if tok == "" then [] else [tok]) + Tokens(rest, d)
    ensures Tokens(tok, d) == if tok == "" then [] else [tok]
  {
    if tok == "" {
      assert tok + [d] + rest == [d] + rest;
      assert ([d] + rest)[1..] == rest;
      assert NextToken([d] + rest, d) == NextToken(rest, d);
    } else {
      TokenBeforeDelimiter(tok, rest, d);
      LastToken(tok, d);
      assert NextToken("", d) == None;
    }
  }

  ghost predicate AskedFor(tokens: seq<string>, n: int, top: int) {
    exists t :: t in tokens && Asks(t, n, top)
  }

  /** A text sets exactly the bits below `len` that one of its tokens asks for. */
  lemma {:induction false} TextAsks(s: string, len: nat, base: nat, k: nat)
    requires base <= 1
    ensures k in TextBits(s, len, base) <==> k < len && AskedFor(Tokens(s, ','), k + base, len + base)
    decreases |s|
  {
    match NextToken(s, ',')
    case None =>
    case Some((tok, rest)) =>
      TokenAsks(tok, len, base);
      TextAsks(rest, len, base, k);
      AskedForNext(tok, Tokens(rest, ','), k + base, len + base);
  }

  lemma AskedForNext(tok: string, rest: seq<string>, n: int, top: int)
    ensures AskedFor([tok] + rest, n, top) <==> Asks(tok, n, top) || AskedFor(rest, n, top)
  {
    if Asks(tok, n, top) { assert tok in [tok] + rest; }
    if AskedFor(rest, n, top) {
      var t :| t in rest && Asks(t, n, top);
      assert t in [tok] + rest;
    }
  }

  function TextBits(s: string, len: nat, base: nat): (bits: set<nat>)
    requires base <= 1
    ensures forall k :: k in bits ==> k < len
    decreases |s|
  {
    match NextToken(s, ',')
    case None => {}
    case Some((tok, rest)) => TokenBits(tok, len, base) + TextBits(rest, len, base)
  }

  /** Whatever the text, no bit at or above `len` is set. */
  function Parse(s: string, len: nat, base: nat): (bits: set<nat>)
    requires base <= 1
    ensures forall k :: k in bits ==> k < len
  {
    if len < 1 || len > 32 then {} else if s == "*" then AllBits(len) else TextBits(s, len, base)
  }

  /** What the text means: nothing for a bad length, all bits for a star, and otherwise exactly the bits
      below `len` that a token asks for. */
  ghost predicate SetsAsked(mask: set<nat>, s: string, len: nat, base: nat) {
    forall k: nat :: k in mask <==>
      k < len <= 32 && (s == "*" || AskedFor(Tokens(s, ','), k + base, len + base))
  }

  lemma ParseAsks(s: string, len: nat, base: nat)
    requires base <= 1
    ensures SetsAsked(Parse(s, len, base), s, len, base)
  {
    forall k: nat
      ensures k in Parse(s, len, base) <==>
                k < len <= 32 && (s == "*" || AskedFor(Tokens(s, ','), k + base, len + base))
    {
      TextAsks(s, len, base, k);
    }
  }

  /** `str_to_bitmask`; the C shift for "*" needs len below 32, and negative numbers cannot occur for
      bases 0 and 1. */
  method StrToBitmask(s: string, len: nat, base: nat) returns (code: int, mask: set<nat>)
    requires base <= 1 && (s == "*" ==> len != 32)
    ensures code == (if len < 1 || len > 32 then -2 else 0)
    ensures mask == Parse(s, len, base)
    ensures SetsAsked(mask, s, len, base)
  {
    ParseAsks(s, len, base);
    mask := {};
    if len < 1 || len > 32 {
      return -2, mask;
    }
    if s == "*" {
      return 0, AllBits(len);
    }
    var next := NextToken(s, ',');
    ghost var left := s;
    while next.Some?
      invariant next == NextToken(left, ',')
      invariant mask + TextBits(left, len, base) == TextBits(s, len, base)
      decreases |left|
    {
      var tok, rest := next.value.0, next.value.1;
      var bits := ParseToken(tok, len, base);
      mask := mask + bits;
      left := rest;
      next := NextToken(rest, ',');
    }
    return 0, mask;
  }

  /** The inner loop, which sets the bits of a run one by one. */
  method SetRange(lo: nat, hi: int) returns (bits: set<nat>)
    ensures bits == Range(lo, hi)
  {
    bits := {};
    var k := lo;
    while k <= hi
      invariant lo <= k && (k <= hi + 1 || k == lo)
      invariant bits == Range(lo, k - 1)
    {
      bits := bits + {k};
      k := k + 1;
    }
  }

  /** The body of the token loop. */
  method ParseToken(tok: string, len: nat, base: nat) returns (bits: set<nat>)
    requires base <= 1
    ensures bits == TokenBits(tok, len, base)
    ensures forall k: nat :: k in bits <==> k < len && Asks(tok, k + base, len + base)
  {
    TokenAsks(tok, len, base);
    bits := {};
    var first := NextToken(tok, '-');
    if first.Some? {
      var x := ToInt(first.value.0);
      if x.Some? {
        var a: int := x.value - base;
        if a >= 0 && a < len {
          bits := bits + {a};
        }
        var second := NextToken(first.value.1, '-');
        if second.Some? {
          var y := ToInt(second.value.0);
          if y.Some? {
            var b: int := y.value - base;
            if b > a && b < len {
              var more := SetRange(a + 1, b);
              bits := bits + more;
            }
          }
        }
      }
    }
  }

  // --------------------------------------------------------------------------------------------
  // Printer

  /** A printed piece: one bit, or a run of bits. */
  datatype Item = One(n: nat) | Run(a: nat, b: nat)

  function Last(i: Item): nat { if i.One? then i.n else i.b }

  predicate Small(i: Item) { if i.One? then i.n < 32 else i.a < i.b < 32 }

  function Extended(i: Item, n: nat): Item {
    Run(if i.One? then i.n else i.a, n)
  }

  /** Well-formed pieces that all end below `i`. */
  ghost predicate Pieces(items: seq<Item>, i: nat) {
    forall k :: 0 <= k < |items| ==> Small(items[k]) && Last(items[k]) < i
  }

  function Widen(items: seq<Item>, n: nat): seq<Item>
    requires items != []
  {
    items[..|items| - 1] + [Extended(items[|items| - 1], n)]
  }

  /** Whether bit `i` continues the piece before it. */
  predicate Continues(mask: set<nat>, range: bool, i: nat) {
    range && i >= 1 && i - 1 in mask
  }

  /** The pieces for the bits below `i`. */
  function Items(mask: set<nat>, range: bool, i: nat): (items: seq<Item>)
    requires i <= 32
    ensures Pieces(items, i)
    ensures i > 0 && i - 1 in mask ==> items != [] && Last(items[|items| - 1]) == i - 1
    decreases i
  {
    if i == 0 then []
    else
      var before := Items(mask, range, i - 1);
      if i - 1 !in mask then before
      else if Continues(mask, range, i - 1) then Widen(before, i - 1)
      else before + [One(i - 1)]
  }

  function ItemText(i: Item, base: nat): string {
    if i.One? then Dec(i.n + base) else Dec(i.a + base) + "-" + Dec(i.b + base)
  }

  function Render(items: seq<Item>, base: nat): string
    decreases |items|
  {
    if items == [] then ""
    else if |items| == 1 then ItemText(items[0], base)
    else ItemText(items[0], base) + "," + Render(items[1..], base)
  }

  /** The text of some pieces when another one follows. */
  function Head(items: seq<Item>, base: nat): string {
    if items == [] then "" else Render(items, base) + ","
  }

  lemma {:induction false} RenderAppend(items: seq<Item>, last: Item, base: nat)
    ensures Render(items + [last], base) == Head(items, base) + ItemText(last, base)
    decreases |items|
  {
    if items == [] {
      assert [] + [last] == [last];
    } else {
      assert (items + [last])[1..] == items[1..] + [last];
      RenderAppend(items[1..], last, base);
    }
  }

  /** Printed mask: "*" for all bits outside range mode, else the pieces. */
  function Print(mask: set<nat>, len: nat, base: nat, range: bool): string
    requires base <= 1
  {
    if len < 1 || len > 32 then ""
    else if !range && mask == AllBits(len) then "*"
    else Render(Items(mask, range, len), base)
  }

  /** The printer's variables: text, state, previous bit, end of the open run. */
  datatype Printer = Printer(s: string, state: nat, prev: int, last: nat)

  /** Text so far, with a run that is still open closed off. */
  function Closed(p: Printer, base: nat): string {
    if p.state == 2 then p.s + "-" + Dec(p.last + base) else p.s
  }

  /** What the variables say about the pieces so far; `i` is the next bit. */
  ghost predicate Tracks(p: Printer, items: seq<Item>, range: bool, base: nat)
  {
    && p.state <= 2
    && Closed(p, base) == Render(items, base)
    && (p.state == 0 <==> items == [])
    && (if items == [] then p.prev == -2 else p.prev == Last(items[|items| - 1]))
    && (p.state == 1 <==> items != [] && items[|items| - 1].One?)
    && (p.state == 2 ==> p.last == p.prev && range)
  }

  /** What is printed for a bit that starts a new piece. */
  function Appended(p: Printer, i: nat, base: nat): string {
    if p.state == 0 then Dec(i + base)
    else if p.state == 1 then "," + Dec(i + base)
    else "-" + Dec(p.last + base) + "," + Dec(i + base)
  }

  lemma AppendedText(s: string, t: string, d: string)
    ensures s + ("," + d) == s + "," + d && s + ("-" + t + "," + d) == s + "-" + t + "," + d && "" + d == d
  {
  }

  lemma StartPiece(p: Printer, items: seq<Item>, range: bool, base: nat, i: nat)
    requires Tracks(p, items, range, base)
    ensures Tracks(Printer(p.s + Appended(p, i, base), 1, i, p.last), items + [One(i)], range, base)
  {
    RenderAppend(items, One(i), base);
    AppendedText(p.s, Dec(p.last + base), Dec(i + base));
  }

  lemma Regroup(head: string, x: string, y: string)
    ensures head + (x + "-" + y) == (head + x) + "-" + y
  {
  }

  lemma ReplaceTail(s: string, head: string, x: string, old_: string, new_: string)
    requires s + "-" + old_ == head + (x + "-" + old_)
    ensures s + "-" + new_ == head + (x + "-" + new_)
  {
    Regroup(head, x, old_);
    Regroup(head, x, new_);
    DropTail(s, head + x, old_);
  }

  lemma DropTail(a: string, b: string, t: string)
    requires a + "-" + t == b + "-" + t
    ensures a == b
  {
    assert a + "-" + t == a + ("-" + t) && b + "-" + t == b + ("-" + t);
    SameTail(a, b, "-" + t);
  }

  lemma WidenOne(front: seq<Item>, n: nat, s: string, base: nat, i: nat)
    requires s == Render(front + [One(n)], base)
    ensures s + "-" + Dec(i + base) == Render(front + [Run(n, i)], base)
  {
    RenderAppend(front, One(n), base);
    RenderAppend(front, Run(n, i), base);
    Regroup(Head(front, base), Dec(n + base), Dec(i + base));
  }

  lemma RenderRun(front: seq<Item>, a: nat, b: nat, base: nat)
    ensures Render(front + [Run(a, b)], base) == Head(front, base) + (Dec(a + base) + "-" + Dec(b + base))
  {
    RenderAppend(front, Run(a, b), base);
  }

  lemma WidenRun(front: seq<Item>, a: nat, b: nat, s: string, base: nat, i: nat)
    requires s + "-" + Dec(b + base) == Render(front + [Run(a, b)], base)
    ensures s + "-" + Dec(i + base) == Render(front + [Run(a, i)], base)
  {
    RenderRun(front, a, b, base);
    RenderRun(front, a, i, base);
    ReplaceTail(s, Head(front, base), Dec(a + base), Dec(b + base), Dec(i + base));
  }

  lemma WidenPiece(p: Printer, items: seq<Item>, base: nat, i: nat)
    requires Tracks(p, items, true, base) && items != []
    ensures Tracks(Printer(p.s, 2, i, i), Widen(items, i), true, base)
  {
    var front, end := items[..|items| - 1], items[|items| - 1];
    assert items == front + [end];
    if end.One? { WidenOne(front, end.n, p.s, base, i); } else { WidenRun(front, end.a, end.b, p.s, base, i); }
  }

  lemma SameTail(a: string, b: string, tail: string)
    requires a + tail == b + tail
    ensures a == b
  {
    assert |a| == |b|;
    assert (a + tail)[..|a|] == a && (b + tail)[..|b|] == b;
  }

  /** The loop body for a bit that is set. */
  function NextPrinter(p: Printer, i: nat, range: bool, base: nat): Printer {
    if p.state != 0 && range && i - p.prev == 1 then Printer(p.s, 2, i, i)
    else Printer(p.s + Appended(p, i, base), 1, i, p.last)
  }

  /** The loop invariant. */
  ghost predicate Printed(p: Printer, mask: set<nat>, range: bool, base: nat, i: nat) {
    && i <= 32 && Tracks(p, Items(mask, range, i), range, base)
    && (p.prev == i - 1 <==> i >= 1 && i - 1 in mask) && p.prev < i
  }

  lemma BitPrinted(p: Printer, mask: set<nat>, range: bool, base: nat, i: nat)
    requires i < 32 && i in mask && Printed(p, mask, range, base, i)
    ensures Printed(NextPrinter(p, i, range, base), mask, range, base, i + 1)
  {
    var items := Items(mask, range, i);
    if Continues(mask, range, i) {
      WidenPiece(p, items, base, i);
      assert Items(mask, range, i + 1) == Widen(items, i);
    } else {
      StartPiece(p, items, range, base, i);
      assert Items(mask, range, i + 1) == items + [One(i)];
    }
  }

  lemma BitSkipped(p: Printer, mask: set<nat>, range: bool, base: nat, i: nat)
    requires i < 32 && i !in mask && Printed(p, mask, range, base, i)
    ensures Printed(p, mask, range, base, i + 1)
  {
    assert Items(mask, range, i + 1) == Items(mask, range, i);
  }

  lemma AllPrinted(p: Printer, mask: set<nat>, range: bool, base: nat, len: nat)
    requires base <= 1 && 1 <= len <= 32 && Printed(p, mask, range, base, len)
    requires range || mask != AllBits(len)
    ensures Closed(p, base) == Print(mask, len, base, range) && (p.state == 2 ==> range)
  {
  }

  /** The loop body of the printer for a bit that is set; runs are only opened in range mode. */
  method PrintBit(p: Printer, i: nat, range: bool, base: nat, ghost mask: set<nat>) returns (q: Printer)
    requires i < 32 && i in mask && Printed(p, mask, range, base, i)
    ensures Printed(q, mask, range, base, i + 1)
  {
    var s, state, last := p.s, p.state, p.last;
    var consecutive := i - p.prev == 1;
    if state == 0 {
      s := s + Dec(i + base);
      state := 1;
    } else if state == 1 {
      if range && consecutive {
        last := i;
        state := 2;
      } else {
        s := s + ("," + Dec(i + base));
      }
    } else if state == 2 {
      if consecutive {
        last := i;
      } else {
        s := s + ("-" + Dec(last + base) + "," + Dec(i + base));
        state := 1;
      }
    }
    q := Printer(s, state, i, last);
    assert q == NextPrinter(p, i, range, base);
    BitPrinted(p, mask, range, base, i);
  }

  /** `bitmask_to_str`; outside range mode the C shift needs len below 32. */
  method BitmaskToStr(mask: set<nat>, len: nat, base: nat, range: bool) returns (s: string)
    requires base <= 1 && (!range ==> len != 32)
    ensures s == Print(mask, len, base, range)
  {
    if len < 1 || len > 32 {
      return "";
    }
    if !range && mask == AllBits(len) {
      return "*";
    }
    var p := PrintPieces(mask, len, base, range);
    AllPrinted(p, mask, range, base, len);
    s := p.s;
    if range && p.state == 2 {
      s := s + "-" + Dec(p.last + base);
    }
  }

  lemma NothingPrinted(mask: set<nat>, range: bool, base: nat)
    ensures Printed(Printer("", 0, -2, 0), mask, range, base, 0)
  {
  }

  /** The loop of the printer. */
  method PrintPieces(mask: set<nat>, len: nat, base: nat, range: bool) returns (p: Printer)
    requires len <= 32
    ensures Printed(p, mask, range, base, len)
  {
    p := Printer("", 0, -2, 0);
    NothingPrinted(mask, range, base);
    var i := 0;
    while i < len
      invariant 0 <= i <= len
      invariant Printed(p, mask, range, base, i)
    {
      if i in mask {
        p := PrintBit(p, i, range, base, mask);
      } else {
        BitSkipped(p, mask, range, base, i);
      }
      i := i + 1;
    }
  }

  // --------------------------------------------------------------------------------------------
  // Round trip

  function ItemBits(i: Item): set<nat> {
    if i.One? then {i.n} else Range(i.a, i.b)
  }

  function ItemsBits(items: seq<Item>): set<nat>
    decreases |items|
  {
    if items == [] then {} else ItemsBits(items[..|items| - 1]) + ItemBits(items[|items| - 1])
  }

  /** The bits of a mask below `i`. */
  function BitsBelow(mask: set<nat>, i: nat): (bits: set<nat>)
    ensures forall k :: k in bits <==> k in mask && k < i
    decreases i
  {
    if i == 0 then {} else BitsBelow(mask, i - 1) + (if i - 1 in mask then {i - 1} else {})
  }

  /** The last piece ends with the bit before `i`. */
  predicate EndsAt(items: seq<Item>, i: nat) {
    items != [] && Small(items[|items| - 1]) && Last(items[|items| - 1]) + 1 == i
  }

  lemma WidenBits(items: seq<Item>, n: nat)
    requires EndsAt(items, n)
    ensures ItemsBits(Widen(items, n)) == ItemsBits(items) + {n}
  {
    var front, end := items[..|items| - 1], items[|items| - 1];
    assert Widen(items, n)[..|items| - 1] == front;
    assert ItemBits(Extended(end, n)) == ItemBits(end) + {n};
  }

  lemma AppendBits(items: seq<Item>, n: nat)
    ensures ItemsBits(items + [One(n)]) == ItemsBits(items) + {n}
  {
    assert (items + [One(n)])[..|items|] == items;
  }

  /** The pieces after bit `i`, given those before it. */
  ghost predicate ItemsStep(before: seq<Item>, now: seq<Item>, mask: set<nat>, i: nat) {
    if i !in mask then now == before
    else now == before + [One(i)] || (EndsAt(before, i) && now == Widen(before, i))
  }

  lemma ItemsTakeStep(mask: set<nat>, range: bool, i: nat)
    requires i < 32
    ensures ItemsStep(Items(mask, range, i), Items(mask, range, i + 1), mask, i)
  {
    var before := Items(mask, range, i);
    if i in mask && Continues(mask, range, i) {
      assert EndsAt(before, i);
    }
  }

  lemma StandsNext(before: seq<Item>, now: seq<Item>, mask: set<nat>, i: nat)
    requires ItemsBits(before) == BitsBelow(mask, i) && ItemsStep(before, now, mask, i)
    ensures ItemsBits(now) == BitsBelow(mask, i + 1)
  {
    AppendBits(before, i);
    if EndsAt(before, i) {
      WidenBits(before, i);
    }
  }

  /** The pieces stand for the bits below `i`. */
  lemma {:induction false} ItemsStandForMask(mask: set<nat>, range: bool, i: nat)
    requires i <= 32
    ensures ItemsBits(Items(mask, range, i)) == BitsBelow(mask, i)
    decreases i
  {
    if i > 0 {
      ItemsStandForMask(mask, range, i - 1);
      ItemsTakeStep(mask, range, i - 1);
      StandsNext(Items(mask, range, i - 1), Items(mask, range, i), mask, i - 1);
    }
  }

  lemma DecHasNo(n: nat, d: char)
    requires !IsDigit(d)
    ensures d !in Dec(n)
  {
    DecIsDigits(n);
  }

  lemma OneTokenBits(x: string, n: nat, len: nat, base: nat)
    requires base <= 1 && n < len <= 32 && ToInt(x) == Some(n + base) && x != "" && '-' !in x
    ensures TokenBits(x, len, base) == {n}
  {
    LastToken(x, '-');
    assert NextToken("", '-') == None;
  }

  lemma OneParses(n: nat, len: nat, base: nat)
    requires base <= 1 && n < len <= 32
    ensures TokenBits(Dec(n + base), len, base) == {n}
  {
    DecToInt(n + base);
    DecHasNo(n + base, '-');
    OneTokenBits(Dec(n + base), n, len, base);
  }

  lemma RunTokens(x: string, y: string)
    requires x != "" && y != "" && '-' !in x && '-' !in y
    ensures NextToken(x + "-" + y, '-') == Some((x, y)) && NextToken(y, '-') == Some((y, ""))
  {
    assert x + "-" + y == x + ['-'] + y;
    TokenBeforeDelimiter(x, y, '-');
    LastToken(y, '-');
  }

  lemma RunTokenBits(x: string, y: string, a: nat, b: nat, len: nat, base: nat)
    requires base <= 1 && a < b < len <= 32 && ToInt(x) == Some(a + base) && ToInt(y) == Some(b + base)
    requires x != "" && y != "" && '-' !in x && '-' !in y
    ensures TokenBits(x + "-" + y, len, base) == Range(a, b)
  {
    RunTokens(x, y);
    assert Range(a, b) == {a} + Range(a + 1, b);
  }

  lemma RunParses(a: nat, b: nat, len: nat, base: nat)
    requires base <= 1 && a < b < len <= 32
    ensures TokenBits(Dec(a + base) + "-" + Dec(b + base), len, base) == Range(a, b)
  {
    DecToInt(a + base);
    DecToInt(b + base);
    DecHasNo(a + base, '-');
    DecHasNo(b + base, '-');
    RunTokenBits(Dec(a + base), Dec(b + base), a, b, len, base);
  }

  lemma ItemHasNoComma(i: Item, base: nat)
    requires Small(i) && base <= 1
    ensures ItemText(i, base) != "" && ',' !in ItemText(i, base)
  {
    if i.One? {
      DecHasNo(i.n + base, ',');
    } else {
      DecHasNo(i.a + base, ',');
      DecHasNo(i.b + base, ',');
    }
  }

  lemma OneItemParses(n: nat, len: nat, base: nat)
    requires base <= 1 && n < len <= 32
    ensures TokenBits(ItemText(One(n), base), len, base) == ItemBits(One(n))
  {
    OneParses(n, len, base);
  }

  lemma RunItemParses(a: nat, b: nat, len: nat, base: nat)
    requires base <= 1 && a < b < len <= 32
    ensures TokenBits(ItemText(Run(a, b), base), len, base) == ItemBits(Run(a, b))
  {
    RunParses(a, b, len, base);
  }

  lemma ItemParses(i: Item, len: nat, base: nat)
    requires Small(i) && base <= 1 && Last(i) < len <= 32
    ensures TokenBits(ItemText(i, base), len, base) == ItemBits(i)
  {
    match i
    case One(n) => OneItemParses(n, len, base);
    case Run(a, b) => RunItemParses(a, b, len, base);
  }

  lemma {:induction false} ItemsBitsFromFront(items: seq<Item>)
    requires items != []
    ensures ItemsBits(items) == ItemBits(items[0]) + ItemsBits(items[1..])
    decreases |items|
  {
    if |items| > 1 {
      ItemsBitsFromFront(items[..|items| - 1]);
      assert items[..|items| - 1][1..] == items[1..][..|items| - 2];
    } else {
      assert items[..0] == [] && items[1..] == [];
    }
  }

  lemma {:induction false} RenderParses(items: seq<Item>, len: nat, base: nat)
    requires base <= 1 && len <= 32 && forall k :: 0 <= k < |items| ==> Small(items[k]) && Last(items[k]) < len
    ensures TextBits(Render(items, base), len, base) == ItemsBits(items)
    decreases |items|
  {
    if items == [] {
      assert NextToken("", ',') == None;
    } else {
      var t := ItemText(items[0], base);
      ItemParses(items[0], len, base);
      ItemHasNoComma(items[0], base);
      ItemsBitsFromFront(items);
      if |items| == 1 {
        LastToken(t, ',');
        assert NextToken("", ',') == None;
        assert items[1..] == [];
      } else {
        var rest := Render(items[1..], base);
        assert Render(items, base) == t + [','] + rest;
        TokenBeforeDelimiter(t, rest, ',');
        RenderParses(items[1..], len, base);
      }
    }
  }

  lemma RenderIsNoStar(items: seq<Item>, base: nat)
    requires base <= 1 && forall k :: 0 <= k < |items| ==> Small(items[k])
    ensures Render(items, base) != "*"
  {
    if items != [] {
      var i := items[0];
      var n := (if i.One? then i.n else i.a) + base;
      DecToInt(n);
      assert Render(items, base)[0] == Dec(n)[0];
    }
  }

  function First(i: Item): nat { if i.One? then i.n else i.a }

  predicate Apart(i: Item, j: Item) { Last(i) + 1 < First(j) }

  ghost predicate AllApart(items: seq<Item>) {
    forall k: nat :: k + 1 < |items| ==> Apart(items[k], items[k + 1])
  }

  lemma ApartAppend(items: seq<Item>, n: nat)
    requires AllApart(items) && (items != [] ==> Last(items[|items| - 1]) + 1 < n)
    ensures AllApart(items + [One(n)])
  {
    var now := items + [One(n)];
    forall k: nat | k + 1 < |now| ensures Apart(now[k], now[k + 1]) {
      if k + 1 < |items| { assert Apart(items[k], items[k + 1]); }
    }
  }

  lemma ApartWiden(items: seq<Item>, n: nat)
    requires AllApart(items) && items != []
    ensures AllApart(Widen(items, n))
  {
    var now := Widen(items, n);
    forall k: nat | k + 1 < |now| ensures Apart(now[k], now[k + 1]) {
      assert Apart(items[k], items[k + 1]);
    }
  }

  /** A bit that is not set leaves a gap behind the pieces. */
  lemma GapBehind(mask: set<nat>, range: bool, i: nat)
    requires 0 < i <= 32 && i - 1 !in mask
    ensures Pieces(Items(mask, range, i), i - 1)
  {
  }

  /** In range mode every run of bits is one piece: between two pieces there is a gap. */
  lemma {:induction false} PiecesAreRuns(mask: set<nat>, i: nat)
    requires i <= 32
    ensures AllApart(Items(mask, true, i))
    decreases i
  {
    if i > 0 {
      PiecesAreRuns(mask, i - 1);
      var before := Items(mask, true, i - 1);
      if i - 1 in mask && Continues(mask, true, i - 1) {
        ApartWiden(before, i - 1);
      } else if i - 1 in mask {
        if i > 1 { GapBehind(mask, true, i - 1); }
        ApartAppend(before, i - 1);
      }
    }
  }

  /** Outside range mode every piece is one bit. */
  lemma {:induction false} PiecesAreBits(mask: set<nat>, i: nat)
    requires i <= 32
    ensures forall k :: 0 <= k < |Items(mask, false, i)| ==> Items(mask, false, i)[k].One?
    decreases i
  {
    if i > 0 { PiecesAreBits(mask, i - 1); }
  }

  /** The star stands for all bits, outside range mode, and nothing else prints as one. */
  lemma StarMeansAll(mask: set<nat>, len: nat, base: nat, range: bool)
    requires base <= 1
    ensures Print(mask, len, base, range) == "*" <==> 1 <= len <= 32 && !range && mask == AllBits(len)
  {
    if 1 <= len <= 32 { RenderIsNoStar(Items(mask, range, len), base); }
  }

  /** Round trip: parsing a printed mask gives the mask cut to `len` bits. */
  lemma RoundTrip(mask: set<nat>, len: nat, base: nat, range: bool)
    requires base <= 1 && 1 <= len <= 32 && (!range ==> len != 32)
    ensures Parse(Print(mask, len, base, range), len, base) == BitsBelow(mask, len)
  {
    if !range && mask == AllBits(len) {
      assert AllBits(len) == BitsBelow(mask, len);
    } else {
      var items := Items(mask, range, len);
      RenderParses(items, len, base);
      RenderIsNoStar(items, base);
      ItemsStandForMask(mask, range, len);
    }
  }

  /** Different masks print differently. */
  lemma PrintInjective(m: set<nat>, n: set<nat>, len: nat, base: nat, range: bool)
    requires base <= 1 && 1 <= len <= 32 && (!range ==> len != 32)
    requires m <= AllBits(len) && n <= AllBits(len) && Print(m, len, base, range) == Print(n, len, base, range)
    ensures m == n
  {
    RoundTrip(m, len, base, range);
    RoundTrip(n, len, base, range);
    assert m == BitsBelow(m, len);
    assert n == BitsBelow(n, len);
  }

  lemma WidenLength(before: seq<Item>, n: nat, base: nat)
    requires before != []
    ensures |Render(Widen(before, n), base)| <= |Render(before, base)| + 3
  {
    var front, end := before[..|before| - 1], before[|before| - 1];
    assert before == front + [end];
    RenderAppend(front, end, base);
    RenderAppend(front, Extended(end, n), base);
    TextLength(end, n, base);
  }

  lemma TextLength(end: Item, n: nat, base: nat)
    ensures |ItemText(Extended(end, n), base)| <= |ItemText(end, base)| + 3
  {
  }

  lemma AppendLength(before: seq<Item>, n: nat, base: nat)
    ensures |Render(before + [One(n)], base)| <= |Render(before, base)| + 3
  {
    RenderAppend(before, One(n), base);
  }

  lemma {:induction false} RenderLength(mask: set<nat>, range: bool, base: nat, i: nat)
    requires base <= 1 && i <= 32
    ensures |Render(Items(mask, range, i), base)| <= 3 * i
    decreases i
  {
    if i > 0 {
      RenderLength(mask, range, base, i - 1);
      ItemsTakeStep(mask, range, i - 1);
      StepLength(Items(mask, range, i - 1), Items(mask, range, i), mask, i - 1, base);
    }
  }

  lemma StepLength(before: seq<Item>, now: seq<Item>, mask: set<nat>, i: nat, base: nat)
    requires ItemsStep(before, now, mask, i)
    ensures |Render(now, base)| <= |Render(before, base)| + 3
  {
    AppendLength(before, i, base);
    if before != [] { WidenLength(before, i, base); }
  }

  /** The text fits the 112-byte buffer with room to spare. */
  lemma PrintFits(mask: set<nat>, len: nat, base: nat, range: bool)
    requires base <= 1
    ensures |Print(mask, len, base, range)| <= 96
  {
    if 1 <= len <= 32 { RenderLength(mask, range, base, len); }
  }
}
