/** Base64 as in sections 4 and 5 of RFC 4648, over strings of bytes. */
module Base64 {
  predicate IsByte(c: char) { c < 256 as char }

  predicate IsBytes(s: string) {
    forall k | 0 <= k < |s| :: IsByte(s[k])
  }

  datatype Alphabet = Std | Url

  predicate IsSymbol(c: char) {
    'A' <= c <= 'Z' || 'a' <= c <= 'z' || '0' <= c <= '9' || c in "+-/_"
  }

  function Symbol(alpha: Alphabet, v: int): char
    requires 0 <= v < 64
  {
    if v < 26 then 'A' + v as char
    else if v < 52 then 'a' + (v - 26) as char
    else if v < 62 then '0' + (v - 52) as char
    else if v == 62 then (if alpha.Std? then '+' else '-')
    else (if alpha.Std? then '/' else '_')
  }

  /** EncodeToString without padding: three bytes become four symbols. */
  function EncodeRaw(alpha: Alphabet, b: string): (e: string)
    requires IsBytes(b)
  {
    if |b| == 0 then ""
    else
      var x := b[0] as int;
      if |b| == 1 then [Symbol(alpha, x / 4), Symbol(alpha, x % 4 * 16)]
      else
        var y := b[1] as int;
        if |b| == 2 then [Symbol(alpha, x / 4), Symbol(alpha, x % 4 * 16 + y / 16), Symbol(alpha, y % 16 * 4)]
        else
          var z := b[2] as int;
          [Symbol(alpha, x / 4), Symbol(alpha, x % 4 * 16 + y / 16),
           Symbol(alpha, y % 16 * 4 + z / 64), Symbol(alpha, z % 64)]
          + EncodeRaw(alpha, b[3..])
  }

  function EncodePadded(alpha: Alphabet, b: string): string
    requires IsBytes(b)
  {
    EncodeRaw(alpha, b) + (if |b| % 3 == 1 then "==" else if |b| % 3 == 2 then "=" else "")
  }

  function RawLength(n: nat): nat {
    n / 3 * 4 + (if n % 3 == 0 then 0 else n % 3 + 1)
  }

  /** The byte at i, reading zeros past the end. */
  function ByteAt(b: string, i: nat): (v: nat)
    requires IsBytes(b)
    ensures v < 256
  {
    if i < |b| then b[i] as int else 0
  }

  /** The six bits that symbol k of the encoding carries. */
  function Sextet(b: string, k: nat): (v: nat)
    requires IsBytes(b)
    ensures v < 64
  {
    var i := k / 4 * 3;
    if k % 4 == 0 then ByteAt(b, i) / 4
    else if k % 4 == 1 then ByteAt(b, i) % 4 * 16 + ByteAt(b, i + 1) / 16
    else if k % 4 == 2 then ByteAt(b, i + 1) % 16 * 4 + ByteAt(b, i + 2) / 64
    else ByteAt(b, i + 2) % 64
  }

  lemma {:induction false} EncodeRawLength(alpha: Alphabet, b: string)
    requires IsBytes(b)
    ensures |EncodeRaw(alpha, b)| == RawLength(|b|)
  {
    if |b| > 2 {
      EncodeRawLength(alpha, b[3..]);
    }
  }

  lemma SextetShift(b: string, k: nat)
    requires IsBytes(b) && |b| >= 3 && k >= 4
    ensures IsBytes(b[3..]) && Sextet(b[3..], k - 4) == Sextet(b, k)
  {
    assert (k - 4) / 4 == k / 4 - 1 && (k - 4) % 4 == k % 4;
  }

  /** The first four symbols. */
  lemma EncodeRawHead(alpha: Alphabet, b: string, k: nat)
    requires IsBytes(b) && k < 4 && k < RawLength(|b|)
    ensures k < |EncodeRaw(alpha, b)| && EncodeRaw(alpha, b)[k] == Symbol(alpha, Sextet(b, k))
  {
    hide Symbol;
    assert k / 4 == 0 && k % 4 == k;
  }

  lemma EncodeRawTail(alpha: Alphabet, b: string, k: nat)
    requires IsBytes(b) && |b| > 2 && 4 <= k < |EncodeRaw(alpha, b)|
    ensures IsBytes(b[3..]) && k - 4 < |EncodeRaw(alpha, b[3..])|
    ensures EncodeRaw(alpha, b)[k] == EncodeRaw(alpha, b[3..])[k - 4]
  {
    hide Symbol;
  }

  /** The encoding, symbol by symbol. */
  lemma {:induction false} EncodeRawAt(alpha: Alphabet, b: string, k: nat)
    requires IsBytes(b) && k < RawLength(|b|)
    ensures |EncodeRaw(alpha, b)| == RawLength(|b|)
    ensures EncodeRaw(alpha, b)[k] == Symbol(alpha, Sextet(b, k))
  {
    hide EncodeRaw, Symbol, Sextet;
    EncodeRawLength(alpha, b);
    if |b| > 2 && k >= 4 {
      SextetShift(b, k);
      EncodeRawTail(alpha, b, k);
      EncodeRawAt(alpha, b[3..], k - 4);
    } else {
      EncodeRawHead(alpha, b, k);
    }
  }

  lemma SymbolIsSymbol(alpha: Alphabet)
    ensures forall v | 0 <= v < 64 :: IsSymbol(Symbol(alpha, v))
  {
  }

  lemma {:induction false} EncodeRawSymbols(alpha: Alphabet, b: string)
    requires IsBytes(b)
    ensures forall k | 0 <= k < |EncodeRaw(alpha, b)| :: IsSymbol(EncodeRaw(alpha, b)[k])
  {
    hide IsSymbol, Symbol;
    SymbolIsSymbol(alpha);
    if |b| > 2 {
      EncodeRawSymbols(alpha, b[3..]);
    }
  }
}
