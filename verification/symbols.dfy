/** Symbols: identifiers of the values and locations a typing context talks
    about. A symbol is either backed by a named declaration or anonymous (a
    fresh number handed out by the type checker), and carries a flag telling
    whether it refers to a memory location. The source packs all of this into
    one machine word; the model keeps the tagged form and defines the word
    separately, proving that equality and ordering agree with it. */
module Symbols {
  import opened Wrappers

  /** The kinds of named declaration a symbol can stand for. */
  datatype DeclKind =
    | FuncDeclKind      // `func` declarations, including built-in functions
    | FuncParamKind     // function parameters
    | QuantParamKind    // parameters of a quantified signature
    | LocDeclKind       // explicit location declarations `!a`
    | AllocKind         // `salloc` / `halloc` statements
    | LoadKind          // `load` statements
    | CallKind          // `call` statements
    | NominalTypeKind   // type declarations (the built-in types)

  /** A declaration object. `id` stands for the object's identity (its
      address); the name and kind never change once the object exists. */
  datatype Decl = Decl(id: nat, name: string, kind: DeclKind)

  datatype Symbol =
    | DeclSym(decl: Decl, isLocRef: bool)
    | AnonSym(id: int, isLocRef: bool)

  /** The symbol a declaration is known by: location declarations refer to a
      location, every other named declaration does not. */
  function SymbolOf(d: Decl): (s: Symbol)
    ensures s.DeclSym? && s.decl == d
    ensures s.isLocRef <==> d.kind == LocDeclKind
  {
    DeclSym(d, d.kind == LocDeclKind)
  }

  /** The declaration behind a symbol, if any. */
  function DeclOf(s: Symbol): (r: Option<Decl>)
    ensures r.Some? <==> RawValue(s) % 2 == 1
  {
    RawParity(s);
    match s
    case DeclSym(d, _) => Some(d)
    case AnonSym(_, _) => None
  }

  /** The name of the declaration behind a symbol, if any. */
  function NameOf(s: Symbol): (r: Option<string>)
    ensures r.Some? <==> s.DeclSym?
    ensures r.Some? ==> r.value == s.decl.name
  {
    match DeclOf(s)
    case Some(d) => Some(d.name)
    case None => None
  }

  // ---------------------------------------------------------------------------
  // The packed machine word

  const Word: int := 0x1_0000_0000_0000_0000
  const HalfWord: int := 0x8000_0000_0000_0000
  /** The ids a shift by two bits keeps: 2^62 of them. */
  const IdSpan: int := 0x4000_0000_0000_0000
  const HalfIdSpan: int := 0x2000_0000_0000_0000

  /** Two's-complement truncation of an integer to a signed 64-bit word. */
  function Wrap64(x: int): (r: int)
    ensures -HalfWord <= r < HalfWord
  {
    var m := x % Word;
    if m >= HalfWord then m - Word else m
  }

  /** Two's-complement truncation to the 62 bits that survive `<< 2`. */
  function Wrap62(x: int): (r: int)
    ensures -HalfIdSpan <= r < HalfIdSpan
  {
    var m := x % IdSpan;
    if m >= HalfIdSpan then m - IdSpan else m
  }

  /** Swift's `id << 2` on a 64-bit word is four times the id truncated to
      62 bits. */
  lemma ShiftIsTruncation(x: int)
    ensures Wrap64(4 * x) == 4 * Wrap62(x)
  {
    var m := x % IdSpan;
    var q := x / IdSpan;
    assert x == IdSpan * q + m;
    assert 4 * x == Word * q + 4 * m;
    assert 0 <= 4 * m < Word;
    assert (4 * x) % Word == 4 * m;
  }

  /** Declaration objects are allocated at distinct 16-byte aligned addresses. */
  function Address(d: Decl): nat {
    16 * (d.id + 1)
  }

  function LocBit(isLocRef: bool): int {
    if isLocRef then 2 else 0
  }

  /** The packed word: a declaration's address with bit 0 set, or the
      anonymous id shifted left by two bits (`ShiftIsTruncation`: the bits
      shifted out are lost); bit 1 is the location flag. */
  function RawValue(s: Symbol): int {
    match s
    case DeclSym(d, loc) => Address(d) + 1 + LocBit(loc)
    case AnonSym(id, loc) => 4 * Wrap62(id) + LocBit(loc)
  }

  /** Ids whose shifted value fits the word. */
  predicate InRange(s: Symbol) {
    s.AnonSym? ==> -HalfIdSpan <= s.id < HalfIdSpan
  }

  lemma Wrap62Small(x: int)
    requires -HalfIdSpan <= x < HalfIdSpan
    ensures Wrap62(x) == x
  {
  }

  /** Bits 0 and 1 of `4 * k + r` are those of `r`. */
  lemma LowBits(k: int, r: int)
    requires 0 <= r < 4
    ensures (4 * k + r) % 2 == r % 2
    ensures ((4 * k + r) / 2) % 2 == r / 2
  {
    var h := 2 * k + r / 2;
    assert 4 * k + r == 2 * h + r % 2;
    assert (4 * k + r) / 2 == h;
    assert h % 2 == (r / 2) % 2;
  }

  /** The word as four times a quotient plus its two flag bits. */
  lemma RawSplit(s: Symbol)
    ensures RawValue(s) == 4 * (match s
      case DeclSym(d, _) => 4 * (d.id + 1)
      case AnonSym(id, _) => Wrap62(id)) + LowTwo(s)
  {
  }

  /** The two low bits: bit 0 marks a declaration, bit 1 a location. */
  function LowTwo(s: Symbol): (r: int)
    ensures 0 <= r < 4
    ensures r % 2 == 1 <==> s.DeclSym?
    ensures r / 2 == 1 <==> s.isLocRef
  {
    (if s.DeclSym? then 1 else 0) + LocBit(s.isLocRef)
  }

  /** Bit 0 of the packed word tells the two kinds of symbol apart. */
  lemma RawParity(s: Symbol)
    ensures RawValue(s) % 2 == 1 <==> s.DeclSym?
  {
    RawSplit(s);
    var k := match s case DeclSym(d, _) => 4 * (d.id + 1) case AnonSym(id, _) => Wrap62(id);
    LowBits(k, LowTwo(s));
  }

  /** The flag is bit 1 of the packed word. */
  lemma LocRefIsBitOne(s: Symbol)
    ensures s.isLocRef <==> (RawValue(s) / 2) % 2 == 1
  {
    RawSplit(s);
    var k := match s case DeclSym(d, _) => 4 * (d.id + 1) case AnonSym(id, _) => Wrap62(id);
    LowBits(k, LowTwo(s));
  }

  /** Declaration-backed words are odd and anonymous ones even, so the two
      kinds never collide. */
  lemma DeclAndAnonNeverCollide(a: Decl, la: bool, id: int, lb: bool)
    ensures RawValue(DeclSym(a, la)) != RawValue(AnonSym(id, lb))
  {
    RawParity(DeclSym(a, la));
    RawParity(AnonSym(id, lb));
  }

  /** Two anonymous symbols have the same word exactly when they have the same
      id and flag, provided the ids are in range. */
  lemma AnonRawInjective(i: int, li: bool, j: int, lj: bool)
    requires InRange(AnonSym(i, li)) && InRange(AnonSym(j, lj))
    ensures RawValue(AnonSym(i, li)) == RawValue(AnonSym(j, lj)) <==> i == j && li == lj
  {
    Wrap62Small(i);
    Wrap62Small(j);
  }

  /** Out of range, the shift loses the high bits: ids 0 and 2^62 collide. */
  lemma AnonOverflowCollides()
    ensures RawValue(AnonSym(0, false)) == RawValue(AnonSym(IdSpan, false))
  {
  }

  /** Declaration-backed words are equal exactly for the same declaration
      object and flag. */
  lemma DeclRawInjective(a: Decl, la: bool, b: Decl, lb: bool)
    ensures RawValue(DeclSym(a, la)) == RawValue(DeclSym(b, lb)) <==> a.id == b.id && la == lb
  {
  }

  /** Well-formed symbols: anonymous ids in range, and one declaration object
      per id. */
  predicate WellFormed(ss: set<Symbol>) {
    (forall s | s in ss :: InRange(s)) &&
    (forall s, t | s in ss && t in ss && s.DeclSym? && t.DeclSym? ::
       s.decl.id == t.decl.id ==> s.decl == t.decl)
  }

  /** On well-formed symbols, word equality is symbol equality: the model's
      structural equality is the source's `Hashable` conformance. */
  lemma RawEqualityIsEquality(s: Symbol, t: Symbol)
    requires WellFormed({s, t})
    ensures RawValue(s) == RawValue(t) <==> s == t
  {
    match s {
      case DeclSym(a, la) =>
        match t {
          case DeclSym(b, lb) => DeclRawInjective(a, la, b, lb);
          case AnonSym(j, lj) => DeclAndAnonNeverCollide(a, la, j, lj);
        }
      case AnonSym(i, li) =>
        match t {
          case DeclSym(b, lb) => DeclAndAnonNeverCollide(b, lb, i, li);
          case AnonSym(j, lj) => AnonRawInjective(i, li, j, lj);
        }
    }
  }

  /** Symbols are ordered by their packed word. */
  predicate Less(s: Symbol, t: Symbol) {
    RawValue(s) < RawValue(t)
  }

  /** `Less` is a strict total order on well-formed symbols. */
  lemma LessIsStrictTotalOrder(s: Symbol, t: Symbol, u: Symbol)
    requires WellFormed({s, t, u})
    ensures !Less(s, s)
    ensures Less(s, t) && Less(t, u) ==> Less(s, u)
    ensures s == t || Less(s, t) || Less(t, s)
    ensures !(Less(s, t) && Less(t, s))
  {
    assert WellFormed({s, t});
    RawEqualityIsEquality(s, t);
  }

  // ---------------------------------------------------------------------------
  // Textual form

  function HexDigit(d: nat): (c: char)
    requires d < 16
  {
    if d < 10 then '0' + d as char else 'a' + (d - 10) as char
  }

  /** Lower-case hexadecimal digits of a natural number, without leading zeros
      (a single "0" for zero), as Swift's `String(_:radix:)` prints them. */
  function Hex(n: nat): (r: string)
    ensures |r| >= 1
    ensures forall i | 0 <= i < |r| :: IsHexDigit(r[i])
    ensures n > 0 ==> r[0] != '0'
    decreases n
  {
    if n < 16 then [HexDigit(n)] else Hex(n / 16) + [HexDigit(n % 16)]
  }

  predicate IsHexDigit(c: char) {
    '0' <= c <= '9' || 'a' <= c <= 'f'
  }

  function HexValue(c: char): (d: nat)
    requires IsHexDigit(c)
    ensures d < 16
  {
    if c <= '9' then (c - '0') as nat else (c - 'a') as nat + 10
  }

  /** Reads a string of hexadecimal digits back as a number. */
  function ParseHex(s: string): nat
    requires forall i | 0 <= i < |s| :: IsHexDigit(s[i])
  {
    if |s| == 0 then 0 else 16 * ParseHex(s[..|s| - 1]) + HexValue(s[|s| - 1])
  }

  lemma {:induction false} HexRoundTrip(n: nat)
    ensures ParseHex(Hex(n)) == n
    decreases n
  {
    if n >= 16 {
      var r := Hex(n);
      assert r[..|r| - 1] == Hex(n / 16);
      HexRoundTrip(n / 16);
    }
  }

  /** Signed hexadecimal: a minus sign before the magnitude of a negative word. */
  function SignedHex(x: int): (r: string)
    ensures |r| >= 1
    ensures x < 0 <==> r[0] == '-'
    ensures x >= 0 ==> r == Hex(x) && ParseHex(Hex(x)) == x
  {
    if x < 0 then "-" + Hex(-x) else HexRoundTrip(x); Hex(x)
  }

  /** A symbol prints as its declaration's name, or as `#` followed by the
      hexadecimal word with the two flag bits cleared. */
  function Description(s: Symbol): (r: string)
    ensures s.DeclSym? ==> r == s.decl.name
    ensures s.AnonSym? ==> |r| >= 2 && r[0] == '#'
  {
    match NameOf(s)
    case Some(n) => n
    case None =>
      var raw := RawValue(s);
      "#" + SignedHex(raw - raw % 4)
  }

  /** The text after `#` reads back as the shifted id, for ids in range. */
  lemma AnonDescriptionReadsBack(id: int, loc: bool)
    requires 0 <= id < HalfIdSpan
    ensures var r := Description(AnonSym(id, loc));
      r[1..] == Hex(4 * id) && ParseHex(r[1..]) == 4 * id
  {
    var s := AnonSym(id, loc);
    Wrap62Small(id);
    assert RawValue(s) == 4 * id + LocBit(loc);
    assert RawValue(s) % 4 == LocBit(loc);
    HexRoundTrip(4 * id);
  }
}
