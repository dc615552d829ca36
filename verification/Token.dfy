/** The pairing token and its grouped Crockford Base32 text
    (crates/ladoflow-transport/src/pairing.rs). Both directions regroup a big
    number, eight bits to five and back, through a small bit accumulator. */
module Token {
  import opened Wrappers
  import opened Words
  import opened Arithmetic

  const TOKEN_BYTES := 10
  const TOKEN_SYMBOLS := 16
  const ALPHABET := "0123456789ABCDEFGHJKMNPQRSTVWXYZ"

  type Symbol = x: int | 0 <= x < 32
  type PairingToken = t: bytes | |t| == TOKEN_BYTES witness [0, 0, 0, 0, 0, 0, 0, 0, 0, 0]

  datatype TokenError = WrongSymbolCount(actual: nat) | InvalidSymbol(symbol: char)

  // ---- Numbers in base 32 -----------------------------------------------------------------

  function Range32(width: nat): nat {
    if width == 0 then 1 else 32 * Range32(width - 1)
  }

  function ToSymbols(width: nat, value: nat): (s: seq<Symbol>)
    requires value < Range32(width)
    ensures |s| == width
  {
    if width == 0 then [] else ToSymbols(width - 1, value / 32) + [value % 32]
  }

  /** The value spelled by `s`, most significant symbol first. */
  function FromSymbols(s: seq<Symbol>): (v: nat)
    ensures v < Range32(|s|)
    decreases |s|
  {
    if s == [] then 0 else 32 * FromSymbols(s[..|s| - 1]) + s[|s| - 1]
  }

  lemma {:induction false} FromToSymbols(width: nat, value: nat)
    requires value < Range32(width)
    ensures FromSymbols(ToSymbols(width, value)) == value
  {
    if width > 0 {
      FromToSymbols(width - 1, value / 32);
      var s := ToSymbols(width, value);
      assert s[..|s| - 1] == ToSymbols(width - 1, value / 32);
    }
  }

  lemma {:induction false} ToFromSymbols(s: seq<Symbol>)
    ensures ToSymbols(|s|, FromSymbols(s)) == s
    decreases |s|
  {
    if s != [] {
      ToFromSymbols(s[..|s| - 1]);
      assert s == s[..|s| - 1] + [s[|s| - 1]];
    }
  }

  /** Sixteen symbols hold exactly ten bytes. */
  lemma SameRange()
    ensures Range32(TOKEN_SYMBOLS) == Range(TOKEN_BYTES)
  {
    assert Range32(3) == 32 * Range32(2) && Range32(5) == 32 * Range32(4) && Range32(7) == 32 * Range32(6);
    assert Range32(9) == 32 * Range32(8) && Range32(11) == 32 * Range32(10) && Range32(13) == 32 * Range32(12);
    assert Range32(15) == 32 * Range32(14);
    assert Range(3) == 256 * Range(2) && Range(5) == 256 * Range(4);
    assert Range(7) == 256 * Range(6) && Range(9) == 256 * Range(8);
  }

  // ---- Symbols as characters --------------------------------------------------------------

  /** `to_ascii_uppercase`. */
  function AsciiUpper(c: char): char {
    if 'a' <= c <= 'z' then (c as int - 32) as char else c
  }

  /** Index of the first occurrence. */
  function Position(s: string, c: char): (r: Option<nat>)
    ensures r.Some? ==> r.value < |s| && s[r.value] == c && c !in s[..r.value]
    ensures r.None? ==> c !in s
    decreases |s|
  {
    if s == [] then None
    else if s[0] == c then Some(0)
    else match Position(s[1..], c)
      case None => None
      case Some(i) => assert s[..i + 1] == [s[0]] + s[1..][..i]; Some(i + 1)
  }

  function DecodeCrockford(c: char): Option<Symbol> {
    var normalized := AsciiUpper(c);
    if normalized == 'O' then Some(0)
    else if normalized == 'I' || normalized == 'L' then Some(1)
    else match Position(ALPHABET, normalized)
      case None => None
      case Some(i) => Some(i)
  }

  /** The alphabet in closed form: digits, then letters without I, L, O, U. */
  function Code(v: Symbol): int {
    if v < 10 then 48 + v else if v < 18 then 55 + v else if v < 20 then 56 + v
    else if v < 22 then 57 + v else if v < 27 then 58 + v else 59 + v
  }

  lemma AlphabetTable(v: Symbol)
    ensures ALPHABET[v] as int == Code(v)
  {
  }

  /** The spelling a symbol is shown in: upper case, no aliases. */
  function Canonical(c: char): char {
    var u := AsciiUpper(c);
    if u == 'O' then '0' else if u == 'I' || u == 'L' then '1' else u
  }

  lemma AlphabetIsDistinct(a: Symbol, b: Symbol)
    ensures ALPHABET[a] == ALPHABET[b] ==> a == b
  {
    AlphabetTable(a);
    AlphabetTable(b);
  }

  lemma PositionOfLetter(v: Symbol)
    ensures Position(ALPHABET, ALPHABET[v]) == Some(v)
  {
    hide Position, Code;
    var at := Position(ALPHABET, ALPHABET[v]);
    assert ALPHABET[v] in ALPHABET;
    AlphabetIsDistinct(at.value, v);
  }

  lemma DecodeLetter(v: Symbol)
    ensures DecodeCrockford(ALPHABET[v]) == Some(v) && Canonical(ALPHABET[v]) == ALPHABET[v]
    ensures !IsSeparator(ALPHABET[v])
  {
    hide Position;
    AlphabetTable(v);
    PositionOfLetter(v);
  }

  /** Two characters decode alike exactly when their canonical spellings
      agree, as far as they are symbols at all. */
  lemma DecodeIsCanonical(c: char, v: Symbol)
    ensures DecodeCrockford(c) == Some(v) <==> Canonical(c) == ALPHABET[v]
  {
    hide Position;
    DecodeLetter(v);
    AlphabetTable(v);
    AlphabetTable(0);
    AlphabetTable(1);
    if DecodeCrockford(c).Some? {
      AlphabetTable(DecodeCrockford(c).value);
    }
  }

  // ---- Grouping and separators ------------------------------------------------------------

  predicate IsSeparator(c: char) { c == '-' || c == ' ' }

  /** A dash before every fourth symbol but the first. */
  function Group(s: string): string
    decreases |s|
  {
    if s == [] then [] else
    var k := |s| - 1;
    Group(s[..k]) + (if k > 0 && k % 4 == 0 then ['-'] else []) + [s[k]]
  }

  function Strip(s: string): (r: string)
    ensures forall c :: c in r ==> !IsSeparator(c)
    decreases |s|
  {
    if s == [] then [] else (if IsSeparator(s[0]) then [] else [s[0]]) + Strip(s[1..])
  }

  lemma {:induction false} StripConcat(a: string, b: string)
    ensures Strip(a + b) == Strip(a) + Strip(b)
    decreases |a|
  {
    if a == [] {
      assert a + b == b;
    } else {
      StripConcat(a[1..], b);
      assert (a + b)[1..] == a[1..] + b;
      var head := if IsSeparator(a[0]) then [] else [a[0]];
      assert head + (Strip(a[1..]) + Strip(b)) == (head + Strip(a[1..])) + Strip(b);
    }
  }

  lemma StripOne(c: char)
    ensures Strip([c]) == if IsSeparator(c) then [] else [c]
  {
  }

  lemma StripAppended(grouped: string, dash: string, c: char)
    requires !IsSeparator(c) && (dash == [] || dash == ['-'])
    ensures Strip(grouped + dash + [c]) == Strip(grouped) + [c]
  {
    StripOne(c);
    StripOne('-');
    StripConcat(grouped + dash, [c]);
    StripConcat(grouped, dash);
    assert Strip(grouped) + [] == Strip(grouped);
  }

  lemma {:induction false} StripGroup(s: string)
    requires forall c :: c in s ==> !IsSeparator(c)
    ensures Strip(Group(s)) == s
    decreases |s|
  {
    hide Strip;
    if s == [] {
      StripNothing();
    } else {
      var k := |s| - 1;
      var dash := if k > 0 && k % 4 == 0 then ['-'] else [];
      assert s[k] in s && forall c :: c in s[..k] ==> c in s;
      StripGroup(s[..k]);
      StripAppended(Group(s[..k]), dash, s[k]);
      assert s == s[..k] + [s[k]];
    }
  }

  lemma StripNothing()
    ensures Strip([]) == []
  {
  }

  // ---- The two directions as functions ----------------------------------------------------

  function TextOf(symbols: seq<Symbol>): (s: string)
    ensures |s| == |symbols|
  {
    seq(|symbols|, i requires 0 <= i < |symbols| => ALPHABET[symbols[i]])
  }

  function Render(token: PairingToken): string {
    SameRange();
    Group(TextOf(ToSymbols(TOKEN_SYMBOLS, FromBe(token))))
  }

  /** The values of the symbols, or the first one that is not a symbol. */
  function Values(s: string): (r: Result<seq<Symbol>, TokenError>)
    ensures r.Ok? ==> |r.value| == |s|
    decreases |s|
  {
    if s == [] then Ok([]) else
    var k := |s| - 1;
    var init :- Values(s[..k]);
    match DecodeCrockford(s[k])
    case None => Err(InvalidSymbol(s[k]))
    case Some(v) => Ok(init + [v])
  }

  function Parse(text: string): (r: Result<PairingToken, TokenError>) {
    var symbols := Strip(text);
    if |symbols| != TOKEN_SYMBOLS then Err(WrongSymbolCount(|symbols|)) else
    var values :- Values(symbols);
    SameRange();
    Ok(ToBe(TOKEN_BYTES, FromSymbols(values)))
  }

  // ---- The bit accumulator ----------------------------------------------------------------

  lemma PutDigit(n: nat, acc: nat, p: nat, base: nat, d: nat)
    requires acc < p && d < base
    ensures base * (n * p + acc) + d == n * (base * p) + (acc * base + d)
    ensures acc * base + d < base * p
  {
    assert base * (n * p + acc) == n * (base * p) + acc * base;
    Monotone(acc + 1, p, base);
    Distribute(acc, 1, base);
    Commute(p, base);
  }

  lemma TakeDigit(n: nat, acc: nat, q: nat, base: nat)
    requires q > 0 && acc < base * q
    ensures 0 <= acc / q < base && 0 <= acc % q <= acc
    ensures n * (base * q) + acc == (base * n + acc / q) * q + acc % q
  {
    FloorAtMost(acc, q, base - 1);
    FloorIsNatural(acc, q);
    var d := acc / q;
    assert acc == d * q + acc % q;
    NonNegative(d, q);
    Distribute(base * n, d, q);
    assert n * (base * q) == base * n * q;
  }

  /** Between steps, what was read is what was written followed by the
      accumulator's `bits` bits. */
  ghost predicate Rendering(read: bytes, written: seq<Symbol>, acc: nat, bits: nat) {
    && acc < Pow2(bits)
    && 8 * |read| == 5 * |written| + bits
    && FromBe(read) == FromSymbols(written) * Pow2(bits) + acc
  }

  ghost predicate Parsing(read: seq<Symbol>, written: bytes, acc: nat, bits: nat) {
    && acc < Pow2(bits)
    && 5 * |read| == 8 * |written| + bits
    && FromSymbols(read) == FromBe(written) * Pow2(bits) + acc
  }

  lemma ShiftByteIn(read: bytes, written: seq<Symbol>, acc: nat, bits: nat, b: u8)
    requires Rendering(read, written, acc, bits)
    ensures Rendering(read + [b], written, acc * 256 + b, bits + 8)
  {
    assert (read + [b])[..|read|] == read;
    Pow2Add(8, bits);
    Pow2Table();
    PutDigit(FromSymbols(written), acc, Pow2(bits), 256, b);
  }

  lemma ShiftSymbolOut(read: bytes, written: seq<Symbol>, acc: nat, bits: nat)
    requires Rendering(read, written, acc, bits) && bits >= 5
    ensures var q := Pow2(bits - 5);
      0 <= acc / q < 32 && 0 <= acc % q <= acc && Rendering(read, written + [acc / q], acc % q, bits - 5)
  {
    var q := Pow2(bits - 5);
    Pow2Add(5, bits - 5);
    Pow2Table();
    TakeDigit(FromSymbols(written), acc, q, 32);
    assert (written + [acc / q])[..|written|] == written;
  }

  lemma ShiftSymbolIn(read: seq<Symbol>, written: bytes, acc: nat, bits: nat, v: Symbol)
    requires Parsing(read, written, acc, bits)
    ensures Parsing(read + [v], written, acc * 32 + v, bits + 5)
  {
    assert (read + [v])[..|read|] == read;
    Pow2Add(5, bits);
    Pow2Table();
    PutDigit(FromBe(written), acc, Pow2(bits), 32, v);
  }

  lemma ShiftByteOut(read: seq<Symbol>, written: bytes, acc: nat, bits: nat)
    requires Parsing(read, written, acc, bits) && bits >= 8
    ensures var q := Pow2(bits - 8);
      0 <= acc / q < 256 && 0 <= acc % q <= acc && Parsing(read, written + [acc / q], acc % q, bits - 8)
  {
    var q := Pow2(bits - 8);
    Pow2Add(8, bits - 8);
    Pow2Table();
    TakeDigit(FromBe(written), acc, q, 256);
    assert (written + [acc / q])[..|written|] == written;
  }

  // ---- The loops --------------------------------------------------------------------------

  /** `(accumulator << width) | low` on 32 bits, `low` having `width` bits. */
  function ShiftIn(accumulator: u32, width: nat, low: nat): nat {
    NonNegative(accumulator, Pow2(width));
    accumulator * Pow2(width) % (U32_MAX + 1) + low
  }

  function Letter(v: Symbol): char { ALPHABET[v] }

  function Dash(symbols: nat): string { if symbols > 0 && symbols % 4 == 0 then ['-'] else [] }

  /** A shift of the first loop loses nothing. */
  lemma ByteShift(read: bytes, written: seq<Symbol>, acc: u32, bits: nat, b: u8)
    requires Rendering(read, written, acc, bits) && bits < 5
    ensures ShiftIn(acc, 8, b) <= U32_MAX && Rendering(read + [b], written, ShiftIn(acc, 8, b), bits + 8)
  {
    hide Rendering, Pow2;
    RenderingFits(read, written, acc, bits);
    ShiftByteIn(read, written, acc, bits, b);
    Pow2Table();
  }

  lemma SymbolShift(read: bytes, written: seq<Symbol>, acc: u32, bits: nat)
    requires Rendering(read, written, acc, bits) && bits >= 5
    ensures var q := Pow2(bits - 5); var index := acc / q % 32;
      && 0 <= index < 32 && 0 <= acc % q <= acc
      && Rendering(read, written + [index], acc % q, bits - 5)
      && Group(TextOf(written + [index])) == Group(TextOf(written)) + Dash(|written|) + [Letter(index)]
  {
    hide Rendering, Pow2, Group, TextOf;
    var q := Pow2(bits - 5);
    ShiftSymbolOut(read, written, acc, bits);
    SmallRemainder(acc / q, 32);
    GroupOneMore(written, acc / q);
  }

  lemma SmallRemainder(x: int, m: int)
    requires 0 <= x < m
    ensures x % m == x
  {
  }

  /** The same for the second loop. */
  lemma ShiftOfSymbol(read: seq<Symbol>, written: bytes, acc: u32, bits: nat, v: Symbol)
    requires Parsing(read, written, acc, bits) && bits < 8
    ensures ShiftIn(acc, 5, v) <= U32_MAX && Parsing(read + [v], written, ShiftIn(acc, 5, v), bits + 5)
  {
    hide Parsing, Pow2;
    ParsingFits(read, written, acc, bits);
    ShiftSymbolIn(read, written, acc, bits, v);
    Pow2Table();
  }

  lemma ShiftOfByte(read: seq<Symbol>, written: bytes, acc: u32, bits: nat)
    requires Parsing(read, written, acc, bits) && bits >= 8 && |read| <= TOKEN_SYMBOLS
    ensures var q := Pow2(bits - 8);
      && |written| < TOKEN_BYTES && 0 <= acc / q % 256 < 256 && 0 <= acc % q <= acc
      && Parsing(read, written + [acc / q % 256], acc % q, bits - 8)
  {
    ParsingRoom(read, written, acc, bits);
    hide Parsing, Pow2;
    ShiftByteOut(read, written, acc, bits);
    SmallRemainder(acc / Pow2(bits - 8), 256);
  }

  /** Renders through the accumulator; no shift ever loses a bit. */
  method ExposeGrouped(token: PairingToken) returns (output: string)
    ensures output == Render(token)
  {
    hide Group, TextOf, Rendering, Pow2, ShiftIn, Render;
    output := "";
    var accumulator: u32 := 0;
    var bits: nat := 0;
    var symbols := 0;
    ghost var written: seq<Symbol> := [];
    RenderingStarts();
    var i := 0;
    while i < |token|
      invariant 0 <= i <= |token| && bits < 5
      invariant Rendering(token[..i], written, accumulator, bits)
      invariant symbols == |written| && output == Group(TextOf(written))
    {
      ByteShift(token[..i], written, accumulator, bits, token[i]);
      assert token[..i + 1] == token[..i] + [token[i]];
      accumulator := ShiftIn(accumulator, 8, token[i]);
      bits := bits + 8;
      while bits >= 5
        invariant Rendering(token[..i + 1], written, accumulator, bits)
        invariant symbols == |written| && output == Group(TextOf(written))
      {
        SymbolShift(token[..i + 1], written, accumulator, bits);
        bits := bits - 5;
        if symbols > 0 && symbols % 4 == 0 {
          output := output + ['-'];
        } else {
          assert output + [] == output;
        }
        var index := accumulator / Pow2(bits) % 32;
        output := output + [Letter(index)];
        symbols := symbols + 1;
        written := written + [index];
        accumulator := accumulator % Pow2(bits);
      }
      i := i + 1;
    }
    assert token[..i] == token;
    RenderingEnds(token, written, accumulator, bits);
  }

  lemma RenderingStarts()
    ensures Rendering([], [], 0, 0) && Parsing([], [], 0, 0) && Group(TextOf([])) == []
  {
  }

  lemma RenderingFits(read: bytes, written: seq<Symbol>, acc: nat, bits: nat)
    requires Rendering(read, written, acc, bits) && bits < 5
    ensures acc < 16
  {
    Pow2Monotone(bits, 4);
    Pow2Table();
  }

  lemma RenderingEnds(token: PairingToken, written: seq<Symbol>, acc: nat, bits: nat)
    requires Rendering(token, written, acc, bits) && bits < 5
    ensures bits == 0 && Group(TextOf(written)) == Render(token)
  {
    hide Group, TextOf, ToSymbols, FromBe, FromSymbols, Range, Range32;
    assert |written| == TOKEN_SYMBOLS;
    ToFromSymbols(written);
  }

  lemma GroupOneMore(written: seq<Symbol>, v: Symbol)
    ensures var k := |written|;
      Group(TextOf(written + [v]))
      == Group(TextOf(written)) + Dash(k) + [Letter(v)]
  {
    var text := TextOf(written + [v]);
    assert text[..|written|] == TextOf(written);
  }

  /** Parses through the accumulator into a fixed buffer, whose bounds hold. */
  method FromText(text: string) returns (r: Result<PairingToken, TokenError>)
    ensures r == Parse(text)
  {
    hide Strip, Values, DecodeCrockford, Parsing, FromBe, FromSymbols, ToBe, Pow2, ShiftIn, Range;
    var symbols := Strip(text);
    if |symbols| != TOKEN_SYMBOLS {
      return Err(WrongSymbolCount(|symbols|));
    }
    var output := new u8[TOKEN_BYTES](_ => 0);
    var accumulator: u32 := 0;
    var bits: nat := 0;
    var outputIndex := 0;
    ghost var values: seq<Symbol> := [];
    RenderingStarts();
    ValuesOfNothing();
    var i := 0;
    while i < |symbols|
      invariant 0 <= i <= |symbols| && |values| == i && bits < 8 && 0 <= outputIndex <= TOKEN_BYTES
      invariant Values(symbols[..i]) == Ok(values)
      invariant Parsing(values, output[..outputIndex], accumulator, bits)
    {
      var decoded := DecodeCrockford(symbols[i]);
      assert symbols[..i + 1] == symbols[..i] + [symbols[i]];
      ValuesOneMore(symbols[..i], symbols[i]);
      if decoded.None? {
        FailureStands(symbols, i + 1);
        return Err(InvalidSymbol(symbols[i]));
      }
      ShiftOfSymbol(values, output[..outputIndex], accumulator, bits, decoded.value);
      values := values + [decoded.value];
      accumulator := ShiftIn(accumulator, 5, decoded.value);
      bits := bits + 5;
      if bits >= 8 {
        ShiftOfByte(values, output[..outputIndex], accumulator, bits);
        bits := bits - 8;
        ghost var before := output[..outputIndex];
        output[outputIndex] := accumulator / Pow2(bits) % 256;
        outputIndex := outputIndex + 1;
        assert output[..outputIndex] == before + [output[outputIndex - 1]];
        accumulator := accumulator % Pow2(bits);
      }
      i := i + 1;
    }
    assert symbols[..i] == symbols;
    ParsingEnds(values, output[..outputIndex], accumulator, bits);
    assert output[..outputIndex] == output[..];
    return Ok(output[..]);
  }

  lemma ParsingFits(read: seq<Symbol>, written: bytes, acc: nat, bits: nat)
    requires Parsing(read, written, acc, bits) && bits < 8
    ensures acc < 128
  {
    Pow2Monotone(bits, 7);
    Pow2Table();
  }

  lemma ParsingRoom(read: seq<Symbol>, written: bytes, acc: nat, bits: nat)
    requires Parsing(read, written, acc, bits) && bits >= 8 && |read| <= TOKEN_SYMBOLS
    ensures |written| < TOKEN_BYTES
  {
  }

  lemma ParsingEnds(read: seq<Symbol>, written: bytes, acc: nat, bits: nat)
    requires Parsing(read, written, acc, bits) && bits < 8 && |read| == TOKEN_SYMBOLS
    ensures bits == 0 && |written| == TOKEN_BYTES
    ensures FromSymbols(read) < Range(TOKEN_BYTES) && written == ToBe(TOKEN_BYTES, FromSymbols(read))
  {
    hide FromBe, FromSymbols, ToBe, Range;
    assert |written| == TOKEN_BYTES;
    ToFromBe(written);
  }

  lemma ValuesOfNothing()
    ensures Values([]) == Ok([])
  {
  }

  lemma ValuesOneMore(s: string, c: char)
    requires Values(s).Ok?
    ensures DecodeCrockford(c).None? ==> Values(s + [c]) == Err(InvalidSymbol(c))
    ensures DecodeCrockford(c).Some? ==> Values(s + [c]) == Ok(Values(s).value + [DecodeCrockford(c).value])
  {
    assert (s + [c])[..|s|] == s;
  }

  lemma {:induction false} FailureStands(s: string, k: nat)
    requires k <= |s| && Values(s[..k]).Err?
    ensures Values(s) == Values(s[..k])
    decreases |s|
  {
    hide DecodeCrockford;
    if k == |s| {
      assert s[..k] == s;
    } else {
      assert s[..|s| - 1][..k] == s[..k];
      FailureStands(s[..|s| - 1], k);
    }
  }

  // ---- What the text means ----------------------------------------------------------------

  function CanonicalAll(s: string): (r: string)
    ensures |r| == |s|
  {
    seq(|s|, i requires 0 <= i < |s| => Canonical(s[i]))
  }

  /** Drop the separators, spell every symbol canonically, group by four. */
  function Canonicalize(text: string): string { Group(CanonicalAll(Strip(text))) }

  lemma CanonicalText(symbols: seq<Symbol>)
    ensures CanonicalAll(TextOf(symbols)) == TextOf(symbols)
    ensures Strip(Group(TextOf(symbols))) == TextOf(symbols)
  {
    forall i | 0 <= i < |symbols|
      ensures Canonical(ALPHABET[symbols[i]]) == ALPHABET[symbols[i]] && !IsSeparator(ALPHABET[symbols[i]])
    {
      DecodeLetter(symbols[i]);
    }
    StripGroup(TextOf(symbols));
  }

  lemma CanonicalKeepsSeparators(s: string)
    requires forall c :: c in s ==> !IsSeparator(c)
    ensures forall c :: c in CanonicalAll(s) ==> !IsSeparator(c)
  {
  }

  lemma ValuesSplit(s: string, values: seq<Symbol>)
    requires s != [] && |s| == |values|
    ensures var k := |s| - 1;
      Values(s) == Ok(values) <==> Values(s[..k]) == Ok(values[..k]) && DecodeCrockford(s[k]) == Some(values[k])
  {
    hide DecodeCrockford;
    var k := |s| - 1;
    var init := Values(s[..k]);
    if init.Ok? && DecodeCrockford(s[k]).Some? {
      var v := DecodeCrockford(s[k]).value;
      assert (init.value + [v])[..k] == init.value && (init.value + [v])[k] == v;
      assert values == values[..k] + [values[k]];
    }
  }

  /** Symbols have values exactly when their canonical spelling is the text of
      those values. */
  lemma {:induction false} ValuesAreCanonical(s: string, values: seq<Symbol>)
    ensures Values(s) == Ok(values) <==> CanonicalAll(s) == TextOf(values)
    decreases |s|
  {
    hide Canonical, DecodeCrockford;
    if s == [] {
    } else if values != [] && |s| == |values| {
      var k := |s| - 1;
      ValuesAreCanonical(s[..k], values[..k]);
      DecodeIsCanonical(s[k], values[k]);
      assert values == values[..k] + [values[k]];
      assert CanonicalAll(s) == CanonicalAll(s[..k]) + [Canonical(s[k])];
      assert TextOf(values) == TextOf(values[..k]) + [ALPHABET[values[k]]];
      assert CanonicalAll(s)[..k] == CanonicalAll(s[..k]) && TextOf(values)[..k] == TextOf(values[..k]);
      ValuesSplit(s, values);
    }
  }

  /** A text is accepted as a token exactly when its canonical form is that
      token's rendering. */
  lemma ParseIsExact(text: string, token: PairingToken)
    ensures Parse(text) == Ok(token) <==> Canonicalize(text) == Render(token)
  {
    hide Strip, Values, CanonicalAll, TextOf, Group, FromBe, FromSymbols, ToBe, ToSymbols;
    SameRange();
    var symbols := Strip(text);
    var values := ToSymbols(TOKEN_SYMBOLS, FromBe(token));
    FromToSymbols(TOKEN_SYMBOLS, FromBe(token));
    ToFromBe(token);
    ValuesAreCanonical(symbols, values);
    CanonicalText(values);
    CanonicalKeepsSeparators(symbols);
    StripGroup(CanonicalAll(symbols));
    if Parse(text) == Ok(token) {
      var parsed := Values(symbols).value;
      FromToBe(TOKEN_BYTES, FromSymbols(parsed));
      ToFromSymbols(parsed);
    }
  }

  /** Parsing the rendering of any token gives the token back. */
  lemma TokenRoundTrip(token: PairingToken)
    ensures Parse(Render(token)) == Ok(token)
  {
    hide Strip, Group, Render, Canonicalize, Parse, CanonicalAll;
    RenderIsCanonical(token);
    ParseIsExact(Render(token), token);
  }

  lemma RenderIsCanonical(token: PairingToken)
    ensures Canonicalize(Render(token)) == Render(token)
  {
    hide Strip, Group, CanonicalAll, TextOf;
    SameRange();
    CanonicalText(ToSymbols(TOKEN_SYMBOLS, FromBe(token)));
  }

  /** A separator may be inserted anywhere, whatever the outcome. */
  lemma SeparatorsDoNotMatter(before: string, separator: char, after: string)
    requires IsSeparator(separator)
    ensures Parse(before + [separator] + after) == Parse(before + after)
  {
    StripConcat(before + [separator], after);
    StripConcat(before, [separator]);
    StripConcat(before, after);
    assert Strip([separator]) == [];
    hide Strip;
    assert Strip(before) + [] == Strip(before);
  }

  lemma SameSpelling(before: string, c: char, d: char, after: string)
    requires Canonical(c) == Canonical(d)
    ensures CanonicalAll(Strip(before + [c] + after)) == CanonicalAll(Strip(before + [d] + after))
  {
    StripConcat(before + [c], after);
    StripConcat(before, [c]);
    StripConcat(before + [d], after);
    StripConcat(before, [d]);
    StripOne(c);
    StripOne(d);
    hide Strip;
    if !IsSeparator(c) {
      assert !IsSeparator(d);
      assert |Strip(before + [c] + after)| == |Strip(before + [d] + after)|;
    }
  }

  /** Any character may be lower-cased or replaced by an alias of it without
      changing acceptance or the token. */
  lemma SpellingDoesNotMatter(before: string, c: char, d: char, after: string, token: PairingToken)
    requires Canonical(c) == Canonical(d)
    ensures Parse(before + [c] + after) == Ok(token) <==> Parse(before + [d] + after) == Ok(token)
  {
    SameSpelling(before, c, d, after);
    ParseIsExact(before + [c] + after, token);
    ParseIsExact(before + [d] + after, token);
  }

  /** Different tokens have different texts. */
  lemma RenderIsInjective(a: PairingToken, b: PairingToken)
    requires Render(a) == Render(b)
    ensures a == b
  {
    TokenRoundTrip(a);
    TokenRoundTrip(b);
  }

  /** The rendering is four groups of four symbols joined by dashes. */
  lemma FourGroups(token: PairingToken)
    ensures |Render(token)| == TOKEN_SYMBOLS + 3
    ensures forall i :: 0 <= i < |Render(token)| ==> (Render(token)[i] == '-' <==> i % 5 == 4)
  {
    SameRange();
    var symbols := ToSymbols(TOKEN_SYMBOLS, FromBe(token));
    CanonicalText(symbols);
    forall i | 0 <= i < |symbols|
      ensures TextOf(symbols)[i] != '-'
    {
      DecodeLetter(symbols[i]);
    }
    GroupShape(TextOf(symbols));
  }

  lemma {:induction false} GroupShape(s: string)
    requires forall i :: 0 <= i < |s| ==> s[i] != '-'
    ensures |Group(s)| == |s| + (if s == [] then 0 else (|s| - 1) / 4)
    ensures forall i :: 0 <= i < |Group(s)| ==> (Group(s)[i] == '-' <==> i % 5 == 4)
    decreases |s|
  {
    if s != [] {
      GroupShape(s[..|s| - 1]);
    }
  }
}
