/** Standard base64, as the MQTT pane previews binary payloads (section 4 of RFC 4648). */
module Base64 {
  import opened Bytes

  type sextet = x: int | 0 <= x < 64

  /** The alphabet: upper case, lower case, digits, `+` and `/`. */
  function Symbol(s: sextet): char {
    if s < 26 then 'A' + s as char
    else if s < 52 then 'a' + (s - 26) as char
    else if s < 62 then '0' + (s - 52) as char
    else if s == 62 then '+'
    else '/'
  }

  /** Up to three bytes as one number, the missing ones as 0. */
  function Triple(chunk: seq<byte>): int
    requires 1 <= |chunk| <= 3
  {
    var b1: int := if |chunk| > 1 then chunk[1] else 0;
    var b2: int := if |chunk| > 2 then chunk[2] else 0;
    chunk[0] as int * 0x1_0000 + b1 * 0x100 + b2
  }

  /** One quantum: up to three bytes as four characters, padded with `=`. */
  function Quantum(chunk: seq<byte>): string
    requires 1 <= |chunk| <= 3
  {
    TripleRange(chunk);
    var triple := Triple(chunk);
    [Symbol(triple / 0x4_0000),
     Symbol(triple / 0x1000 % 64),
     if |chunk| > 1 then Symbol(triple / 0x40 % 64) else '=',
     if |chunk| > 2 then Symbol(triple % 64) else '=']
  }

  lemma TripleRange(chunk: seq<byte>)
    requires 1 <= |chunk| <= 3
    ensures 0 <= Triple(chunk) < 0x100_0000 && 0 <= Triple(chunk) / 0x4_0000 < 64
  {
  }

  function Encoded(bytes: seq<byte>): string {
    if bytes == [] then []
    else if |bytes| <= 3 then Quantum(bytes)
    else Quantum(bytes[..3]) + Encoded(bytes[3..])
  }

  lemma EncodedStep(bytes: seq<byte>, size: nat)
    requires 1 <= size <= 3 && size <= |bytes| && (size < 3 ==> size == |bytes|)
    ensures Encoded(bytes) == Quantum(bytes[..size]) + Encoded(bytes[size..])
  {
    if |bytes| <= 3 {
      assert bytes[..size] == bytes && bytes[size..] == [];
    }
  }

  method Encode(bytes: seq<byte>) returns (out: string)
    ensures out == Encoded(bytes)
  {
    hide Quantum;
    out := [];
    var at := 0;
    assert bytes[0..] == bytes;
    while at < |bytes|
      invariant 0 <= at <= |bytes|
      invariant out + Encoded(bytes[at..]) == Encoded(bytes)
    {
      var end := if at + 3 < |bytes| then at + 3 else |bytes|;
      EncodedStep(bytes[at..], end - at);
      assert bytes[at..][..end - at] == bytes[at..end];
      assert bytes[at..][end - at..] == bytes[end..];
      out := out + Quantum(bytes[at..end]);
      at := end;
    }
  }

  // ---------------------------------------------------------------- what the text says

  const UPPER := "ABCDEFGHIJKLMNOPQRSTUVWXYZ"
  const LOWER := "abcdefghijklmnopqrstuvwxyz"
  const DIGITS := "0123456789"
  const ALPHABET := UPPER + LOWER + DIGITS + "+/"

  function ByteAt(bytes: seq<byte>, at: nat): byte {
    if at < |bytes| then bytes[at] else 0
  }

  lemma SymbolIs(s: sextet)
    ensures |ALPHABET| == 64 && Symbol(s) == ALPHABET[s]
  {
  }

  lemma Split(upper: nat, lower: nat)
    requires lower < 64
    ensures (upper * 64 + lower) / 64 == upper && (upper * 64 + lower) % 64 == lower
  {
  }

  /** A number of four sextets taken apart. */
  lemma SextetsOf(s0: nat, s1: nat, s2: nat, s3: nat, triple: nat)
    requires s0 < 64 && s1 < 64 && s2 < 64 && s3 < 64
    requires triple == ((s0 * 64 + s1) * 64 + s2) * 64 + s3
    ensures triple / 0x4_0000 == s0
    ensures triple / 0x1000 % 64 == s1
    ensures triple / 0x40 % 64 == s2
    ensures triple % 64 == s3
  {
    Split((s0 * 64 + s1) * 64 + s2, s3);
    Split(s0 * 64 + s1, s2);
    Split(s0, s1);
    assert triple / 0x1000 == s0 * 64 + s1;
  }

  /** The four characters of one to three bytes: six bits each, in the order of the bytes, a missing
      byte counting as 0, and `=` in place of a character that would hold nothing of what is there. */
  lemma QuantumSays(chunk: seq<byte>)
    requires 1 <= |chunk| <= 3
    ensures var b0, b1, b2 := chunk[0], ByteAt(chunk, 1), ByteAt(chunk, 2);
            Quantum(chunk)
            == [Symbol(b0 / 4), Symbol(b0 % 4 * 16 + b1 / 16),
                if |chunk| > 1 then Symbol(b1 % 16 * 4 + b2 / 64) else '=',
                if |chunk| > 2 then Symbol(b2 % 64) else '=']
  {
    hide Symbol;
    var b0, b1, b2 := chunk[0], ByteAt(chunk, 1), ByteAt(chunk, 2);
    SextetsOf(b0 / 4, b0 % 4 * 16 + b1 / 16, b1 % 16 * 4 + b2 / 64, b2 % 64, Triple(chunk));
  }

  /** The text is one such quantum for every three bytes, in order, and one for what is left. */
  lemma {:induction false} EncodedIsQuanta(bytes: seq<byte>, at: nat)
    requires 3 * at < |bytes|
    ensures |Encoded(bytes)| >= 4 * at + 4
    ensures var chunk := bytes[3 * at..if 3 * at + 3 <= |bytes| then 3 * at + 3 else |bytes|];
            Encoded(bytes)[4 * at..4 * at + 4] == Quantum(chunk)
  {
    hide Quantum;
    var size := if |bytes| <= 3 then |bytes| else 3;
    EncodedStep(bytes, size);
    QuantumPadding(bytes[..size]);
    if at > 0 {
      var rest := bytes[3..];
      EncodedIsQuanta(rest, at - 1);
      var end := if 3 * at + 3 <= |bytes| then 3 * at + 3 else |bytes|;
      assert rest[3 * (at - 1)..end - 3] == bytes[3 * at..end];
      assert Encoded(bytes)[4 * at..4 * at + 4] == Encoded(rest)[4 * (at - 1)..4 * at];
    }
  }

  // ---------------------------------------------------------------- reading it back

  function Value(c: char): int {
    if 'A' <= c <= 'Z' then c as int - 'A' as int
    else if 'a' <= c <= 'z' then c as int - 'a' as int + 26
    else if '0' <= c <= '9' then c as int - '0' as int + 52
    else if c == '+' then 62
    else if c == '/' then 63
    else 0
  }

  function QuantumTriple(quantum: string): int
    requires |quantum| == 4
  {
    Value(quantum[0]) * 0x4_0000 + Value(quantum[1]) * 0x1000 + Value(quantum[2]) * 0x40 + Value(quantum[3])
  }

  /** The bytes of one quantum; `=` stands for a byte that was not there. */
  function QuantumBytes(quantum: string): seq<int>
    requires |quantum| == 4
  {
    var triple := QuantumTriple(quantum);
    [triple / 0x1_0000]
    + (if quantum[2] == '=' then [] else [triple / 0x100 % 256])
    + (if quantum[3] == '=' then [] else [triple % 256])
  }

  function Decoded(text: string): seq<int> {
    if |text| < 4 then [] else QuantumBytes(text[..4]) + Decoded(text[4..])
  }

  lemma SymbolReadsBack(s: sextet)
    ensures Value(Symbol(s)) == s && Symbol(s) != '='
  {
  }

  /** A triple of bytes taken apart into sextets and put together again. */
  lemma SextetsRejoin(triple: int)
    requires 0 <= triple < 0x100_0000
    ensures triple / 0x4_0000 < 64
    ensures triple == triple / 0x4_0000 * 0x4_0000 + triple / 0x1000 % 64 * 0x1000
                      + triple / 0x40 % 64 * 0x40 + triple % 64
  {
    assert triple / 0x1000 == triple / 0x4_0000 * 64 + triple / 0x1000 % 64;
    assert triple / 0x40 == triple / 0x1000 * 64 + triple / 0x40 % 64;
  }

  /** Missing bytes leave the sextets they would fill at 0. */
  lemma TripleParts(chunk: seq<byte>)
    requires 1 <= |chunk| <= 3
    ensures Triple(chunk) / 0x1_0000 == chunk[0]
    ensures |chunk| > 1 ==> Triple(chunk) / 0x100 % 256 == chunk[1]
    ensures |chunk| > 2 ==> Triple(chunk) % 256 == chunk[2]
    ensures |chunk| < 3 ==> Triple(chunk) % 64 == 0
    ensures |chunk| < 2 ==> Triple(chunk) / 0x40 % 64 == 0
  {
    var b0: int := chunk[0];
    if |chunk| < 2 {
      assert Triple(chunk) / 0x40 == b0 * 1024;
    } else {
      var b1: int := chunk[1];
      assert Triple(chunk) / 0x100 == b0 * 256 + b1;
    }
  }

  lemma QuantumTripleReadsBack(chunk: seq<byte>)
    requires 1 <= |chunk| <= 3
    ensures QuantumTriple(Quantum(chunk)) == Triple(chunk)
  {
    hide Symbol, Value, Triple;
    TripleRange(chunk);
    var triple := Triple(chunk);
    TripleParts(chunk);
    SextetsRejoin(triple);
    SymbolReadsBack(triple / 0x4_0000);
    SymbolReadsBack(triple / 0x1000 % 64);
    SymbolReadsBack(triple / 0x40 % 64);
    SymbolReadsBack(triple % 64);
    PaddingIsZero();
  }

  lemma QuantumReadsBack(chunk: seq<byte>)
    requires 1 <= |chunk| <= 3
    ensures |Quantum(chunk)| == 4 && QuantumBytes(Quantum(chunk)) == chunk
  {
    hide Quantum, Triple, QuantumTriple;
    QuantumPadding(chunk);
    QuantumTripleReadsBack(chunk);
    TripleParts(chunk);
  }

  lemma PaddingIsZero()
    ensures Value('=') == 0
  {
  }

  /** Decoding undoes encoding on every byte string. */
  lemma {:induction false} DecodeUndoesEncode(bytes: seq<byte>)
    ensures Decoded(Encoded(bytes)) == bytes
  {
    hide Quantum, QuantumBytes;
    if bytes != [] {
      var size := if |bytes| <= 3 then |bytes| else 3;
      var chunk, rest := bytes[..size], bytes[size..];
      EncodedStep(bytes, size);
      DecodeUndoesEncode(rest);
      QuantumReadsBack(chunk);
      var text := Quantum(chunk) + Encoded(rest);
      assert text[..4] == Quantum(chunk) && text[4..] == Encoded(rest);
      assert bytes == chunk + rest;
    }
  }

  /** Whole quanta only, and `=` nowhere but at the end of the last one: none, one or two of them
      as the bytes leave a quantum full, one short or two short. */
  lemma {:induction false} EncodedShape(bytes: seq<byte>)
    ensures |Encoded(bytes)| == (|bytes| + 2) / 3 * 4
    ensures forall i :: 0 <= i < |Encoded(bytes)| && Encoded(bytes)[i] == '=' ==>
      i >= |Encoded(bytes)| - (3 - |bytes| % 3) % 3
    ensures forall i :: |Encoded(bytes)| - (3 - |bytes| % 3) % 3 <= i < |Encoded(bytes)| ==>
      Encoded(bytes)[i] == '='
  {
    hide Quantum;
    if bytes != [] {
      var chunk := if |bytes| <= 3 then bytes else bytes[..3];
      QuantumPadding(chunk);
      if |bytes| > 3 {
        EncodedShape(bytes[3..]);
      }
    }
  }

  lemma QuantumPadding(chunk: seq<byte>)
    requires 1 <= |chunk| <= 3
    ensures |Quantum(chunk)| == 4
    ensures forall i :: 0 <= i < 4 ==> (Quantum(chunk)[i] == '=' <==> i > |chunk|)
  {
    hide Triple;
    TripleRange(chunk);
  }
}
