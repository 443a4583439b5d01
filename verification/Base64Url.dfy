/**
 The bearer-token codec: base64url without padding (sections 4 and 5 of RFC 4648), done
 with a 32-bit buffer that keeps shifting its oldest bits out.
 */
module Base64Url {
  import opened Foundation

  type byte = x: int | 0 <= x < 256
  type sextet = x: int | 0 <= x < 64

  const U32: int := 0x1_0000_0000

  /** The encoder's table, eight symbols at a time. */
  const TABLE: string :=
    "ABCDEFGH" + "IJKLMNOP" + "QRSTUVWX" + "YZabcdef" + "ghijklmn" + "opqrstuv" + "wxyz0123" + "456789-_"

  /** The decoder's ranges. */
  function Value(c: int): Option<sextet> {
    if 'A' as int <= c <= 'Z' as int then Some(c - 'A' as int)
    else if 'a' as int <= c <= 'z' as int then Some(c - 'a' as int + 26)
    else if '0' as int <= c <= '9' as int then Some(c - '0' as int + 52)
    else if c == '-' as int then Some(62)
    else if c == '_' as int then Some(63)
    else None
  }

  lemma TableBlock(w: string, base: int)
    requires |w| == 8 && 0 <= base <= 56
    requires Value(w[0] as int) == Some(base) && Value(w[1] as int) == Some(base + 1)
    requires Value(w[2] as int) == Some(base + 2) && Value(w[3] as int) == Some(base + 3)
    requires Value(w[4] as int) == Some(base + 4) && Value(w[5] as int) == Some(base + 5)
    requires Value(w[6] as int) == Some(base + 6) && Value(w[7] as int) == Some(base + 7)
    ensures forall i :: 0 <= i < 8 ==> Value(w[i] as int) == Some(base + i)
  {
  }

  lemma QuarterIsRead(v: sextet)
    ensures v < 16 ==> Value(TABLE[v] as int) == Some(v)
  {
    TableBlock("ABCDEFGH", 0);
    TableBlock("IJKLMNOP", 8);
  }

  lemma SecondQuarterIsRead(v: sextet)
    ensures 16 <= v < 32 ==> Value(TABLE[v] as int) == Some(v)
  {
    TableBlock("QRSTUVWX", 16);
    TableBlock("YZabcdef", 24);
  }

  lemma ThirdQuarterIsRead(v: sextet)
    ensures 32 <= v < 48 ==> Value(TABLE[v] as int) == Some(v)
  {
    TableBlock("ghijklmn", 32);
    TableBlock("opqrstuv", 40);
  }

  lemma LastQuarterIsRead(v: sextet)
    ensures 48 <= v ==> Value(TABLE[v] as int) == Some(v)
  {
    TableBlock("wxyz0123", 48);
    TableBlock("456789-_", 56);
  }

  /** Every symbol of the table is read back as its own index. */
  lemma TableIsRead(v: sextet)
    ensures Value(TABLE[v] as int) == Some(v)
  {
    QuarterIsRead(v);
    SecondQuarterIsRead(v);
    ThirdQuarterIsRead(v);
    LastQuarterIsRead(v);
  }

  function Symbol(v: sextet): byte {
    TableIsRead(v);
    TABLE[v] as int
  }

  /** The decoder reads a symbol as `v` exactly when the encoder writes `v` so. */
  lemma ValueInvertsSymbol(c: byte, v: sextet)
    ensures Value(c) == Some(v) <==> c == Symbol(v)
  {
    TableIsRead(v);
  }

  function Symbols(digits: seq<sextet>): seq<byte> {
    seq(|digits|, i requires 0 <= i < |digits| => Symbol(digits[i]))
  }

  predicate InAlphabet(text: seq<byte>) {
    forall i :: 0 <= i < |text| ==> Value(text[i]).Some?
  }

  /** The digits of a text; a byte outside the alphabet, which the decoder refuses, reads as zero. */
  function Digits(text: seq<byte>): seq<sextet> {
    seq(|text|, i requires 0 <= i < |text| => if Value(text[i]).Some? then Value(text[i]).value else 0)
  }

  lemma DigitsInvertSymbols(digits: seq<sextet>)
    ensures InAlphabet(Symbols(digits)) && Digits(Symbols(digits)) == digits
  {
    forall i | 0 <= i < |digits| ensures Value(Symbols(digits)[i]) == Some(digits[i]) {
      ValueInvertsSymbol(Symbol(digits[i]), digits[i]);
    }
  }

  lemma SymbolsInvertDigits(text: seq<byte>)
    requires InAlphabet(text)
    ensures Symbols(Digits(text)) == text
  {
    forall i | 0 <= i < |text| ensures Symbols(Digits(text))[i] == text[i] {
      ValueInvertsSymbol(text[i], Digits(text)[i]);
    }
  }

  // ----- The meaning: groups of three octets and four digits -----

  datatype Octets = Octets(x: byte, y: byte, z: byte)
  datatype Sextets = Sextets(a: sextet, b: sextet, c: sextet, d: sextet)

  /** Two bits and the next octet; four bits and the next octet. */
  function Digit2(p: int, y: int): int { p * 16 + y / 16 }

  function Digit3(p: int, z: int): int { p * 4 + z / 64 }

  /** The 24 bits of three octets as four digits. */
  function Split(o: Octets): Sextets {
    Sextets(o.x / 4, Digit2(o.x % 4, o.y), Digit3(o.y % 16, o.z), o.z % 64)
  }

  /** Six, four and two bits with the next digit. */
  function Octet1(p: int, b: int): int { p * 4 + b / 16 }

  function Octet2(p: int, c: int): int { p * 16 + c / 4 }

  function Octet3(p: int, d: int): int { p * 64 + d }

  function Join(s: Sextets): Octets {
    Octets(Octet1(s.a, s.b), Octet2(Low(s.b, 16), s.c), Octet3(Low(s.c, 4), s.d))
  }

  /** The last bits of a digit. */
  function Low(v: int, unit: int): int
    requires unit == 4 || unit == 16
  {
    v % unit
  }

  /** Section 4 of RFC 4648 without the pad characters: a last, shorter group is filled up with zero bits. */
  function EncodeBy(split: Octets -> Sextets, bytes: seq<byte>): seq<sextet> {
    if bytes == [] then []
    else if |bytes| == 1 then var s := split(Octets(bytes[0], 0, 0)); [s.a, s.b]
    else if |bytes| == 2 then var s := split(Octets(bytes[0], bytes[1], 0)); [s.a, s.b, s.c]
    else var s := split(Octets(bytes[0], bytes[1], bytes[2])); [s.a, s.b, s.c, s.d] + EncodeBy(split, bytes[3..])
  }

  /** Its inverse on digits; a lone last digit carries no octet. */
  function DecodeBy(join: Sextets -> Octets, d: seq<sextet>): seq<byte> {
    if |d| <= 1 then []
    else if |d| == 2 then [join(Sextets(d[0], d[1], 0, 0)).x]
    else if |d| == 3 then var o := join(Sextets(d[0], d[1], d[2], 0)); [o.x, o.y]
    else var o := join(Sextets(d[0], d[1], d[2], d[3])); [o.x, o.y, o.z] + DecodeBy(join, d[4..])
  }

  function Encode(bytes: seq<byte>): seq<sextet> {
    EncodeBy(Split, bytes)
  }

  function Decode(d: seq<sextet>): seq<byte> {
    DecodeBy(Join, d)
  }

  lemma DivModUnique(x: int, m: int, q: int, r: int)
    requires 0 <= r < m && x == q * m + r
    ensures x / m == q && x % m == r
  {
    var dq := x / m - q;
    assert dq * m + x % m == r;
    assert dq >= 1 ==> dq * m >= m;
    assert dq <= -1 ==> dq * m <= -m;
  }

  lemma Octet1Parts(a: int, b: int)
    requires 0 <= a < 64 && 0 <= b < 64
    ensures 0 <= Octet1(a, b) < 256 && Octet1(a, b) / 4 == a && Octet1(a, b) % 4 == b / 16
  {
    DivModUnique(Octet1(a, b), 4, a, b / 16);
  }

  lemma Octet2Parts(p: int, c: int)
    requires 0 <= p < 16 && 0 <= c < 64
    ensures 0 <= Octet2(p, c) < 256 && Octet2(p, c) / 16 == p && Octet2(p, c) % 16 == c / 4
  {
    DivModUnique(Octet2(p, c), 16, p, c / 4);
  }

  lemma Octet3Parts(p: int, d: int)
    requires 0 <= p < 4 && 0 <= d < 64
    ensures 0 <= Octet3(p, d) < 256 && Octet3(p, d) / 64 == p && Octet3(p, d) % 64 == d
  {
    DivModUnique(Octet3(p, d), 64, p, d);
  }

  lemma Digit2Parts(p: int, y: int)
    requires 0 <= p < 4 && 0 <= y < 256
    ensures 0 <= Digit2(p, y) < 64 && Digit2(p, y) / 16 == p && Digit2(p, y) % 16 == y / 16
  {
    DivModUnique(Digit2(p, y), 16, p, y / 16);
  }

  lemma Digit3Parts(p: int, z: int)
    requires 0 <= p < 16 && 0 <= z < 256
    ensures 0 <= Digit3(p, z) < 64 && Digit3(p, z) / 4 == p && Digit3(p, z) % 4 == z / 64
  {
    DivModUnique(Digit3(p, z), 4, p, z / 64);
  }

  lemma SplitJoin(s: Sextets)
    ensures Split(Join(s)) == s
  {
    Octet1Parts(s.a, s.b);
    Octet2Parts(s.b % 16, s.c);
    Octet3Parts(s.c % 4, s.d);
  }

  lemma JoinSplit(o: Octets)
    ensures Join(Split(o)) == o
  {
    Digit2Parts(o.x % 4, o.y);
    Digit3Parts(o.y % 16, o.z);
  }

  /** A digit without the bits that belong to no octet. */
  function Trim(v: sextet, unit: int): sextet
    requires unit == 4 || unit == 16
  {
    v / unit * unit
  }

  lemma SplitJoinLast(a: sextet, b: sextet, c: sextet)
    ensures Split(Octets(Join(Sextets(a, b, 0, 0)).x, 0, 0)) == Sextets(a, Trim(b, 16), 0, 0)
    ensures var o := Join(Sextets(a, b, c, 0)); Split(Octets(o.x, o.y, 0)) == Sextets(a, b, Trim(c, 4), 0)
  {
    Octet1Parts(a, b);
    Octet2Parts(b % 16, c);
  }

  /** All the codec needs of its two maps on groups. */
  ghost predicate Inverse(split: Octets -> Sextets, join: Sextets -> Octets) {
    && (forall o :: join(split(o)) == o)
    && (forall s :: split(join(s)) == s)
    && (forall x :: split(Octets(x, 0, 0)).c == 0 && split(Octets(x, 0, 0)).d == 0)
    && (forall x, y :: split(Octets(x, y, 0)).d == 0)
    && (forall a, b :: split(Octets(join(Sextets(a, b, 0, 0)).x, 0, 0)) == Sextets(a, Trim(b, 16), 0, 0))
    && (forall a, b, c :: split(Octets(join(Sextets(a, b, c, 0)).x, join(Sextets(a, b, c, 0)).y, 0)) == Sextets(a, b, Trim(c, 4), 0))
  }

  lemma SplitInvertsJoin()
    ensures Inverse(Split, Join)
  {
    forall o ensures Join(Split(o)) == o { JoinSplit(o); }
    forall s ensures Split(Join(s)) == s { SplitJoin(s); }
    forall a, b ensures Split(Octets(Join(Sextets(a, b, 0, 0)).x, 0, 0)) == Sextets(a, Trim(b, 16), 0, 0) { SplitJoinLast(a, b, 0); }
    forall a, b, c ensures var o := Join(Sextets(a, b, c, 0)); Split(Octets(o.x, o.y, 0)) == Sextets(a, b, Trim(c, 4), 0) {
      SplitJoinLast(a, b, c);
    }
  }

  lemma {:induction false} DecodeByInverts(split: Octets -> Sextets, join: Sextets -> Octets, bytes: seq<byte>)
    requires Inverse(split, join)
    ensures DecodeBy(join, EncodeBy(split, bytes)) == bytes
  {
    if |bytes| == 1 {
      var s := split(Octets(bytes[0], 0, 0));
      assert Sextets(s.a, s.b, 0, 0) == s;
    } else if |bytes| == 2 {
      var s := split(Octets(bytes[0], bytes[1], 0));
      assert Sextets(s.a, s.b, s.c, 0) == s;
    } else if |bytes| >= 3 {
      DecodeByInverts(split, join, bytes[3..]);
      var o := Octets(bytes[0], bytes[1], bytes[2]);
      var s, rest := split(o), EncodeBy(split, bytes[3..]);
      assert ([s.a, s.b, s.c, s.d] + rest)[4..] == rest;
      assert bytes == [o.x, o.y, o.z] + bytes[3..];
    }
  }

  /** The digits, with the bits that belong to no octet cleared. */
  function Cleared(d: seq<sextet>): seq<sextet> {
    if |d| <= 1 then []
    else if |d| == 2 then [d[0], Trim(d[1], 16)]
    else if |d| == 3 then [d[0], d[1], Trim(d[2], 4)]
    else [d[0], d[1], d[2], d[3]] + Cleared(d[4..])
  }

  lemma {:induction false} EncodeByInverts(split: Octets -> Sextets, join: Sextets -> Octets, d: seq<sextet>)
    requires Inverse(split, join)
    ensures EncodeBy(split, DecodeBy(join, d)) == Cleared(d)
  {
    if |d| >= 4 {
      EncodeByInverts(split, join, d[4..]);
      var o, rest := join(Sextets(d[0], d[1], d[2], d[3])), DecodeBy(join, d[4..]);
      assert ([o.x, o.y, o.z] + rest)[3..] == rest;
    }
  }

  /** Decoding inverts encoding, for every byte string. */
  lemma DecodeInvertsEncode(bytes: seq<byte>)
    ensures Decode(Encode(bytes)) == bytes
  {
    SplitInvertsJoin();
    DecodeByInverts(Split, Join, bytes);
  }

  lemma EncodeOfDecode(d: seq<sextet>)
    ensures Encode(Decode(d)) == Cleared(d)
  {
    SplitInvertsJoin();
    EncodeByInverts(Split, Join, d);
  }

  lemma {:induction false} EncodedLength(split: Octets -> Sextets, bytes: seq<byte>)
    ensures |EncodeBy(split, bytes)| == (|bytes| * 8 + 5) / 6
  {
    if |bytes| >= 3 {
      EncodedLength(split, bytes[3..]);
    }
  }

  lemma {:induction false} DecodedLength(join: Sextets -> Octets, d: seq<sextet>)
    ensures |DecodeBy(join, d)| == |d| * 6 / 8
  {
    if |d| >= 4 {
      DecodedLength(join, d[4..]);
    }
  }

  /** The bits of the last digit that belong to no octet are zero (section 3.5 of RFC 4648). */
  predicate Canonical(d: seq<sextet>) {
    if d == [] then true
    else if |d| == 1 then false
    else if |d| == 2 then d[1] == Trim(d[1], 16)
    else if |d| == 3 then d[2] == Trim(d[2], 4)
    else Canonical(d[4..])
  }

  lemma {:induction false} ClearedIffCanonical(d: seq<sextet>)
    ensures Cleared(d) == d <==> Canonical(d)
  {
    if |d| >= 4 {
      ClearedIffCanonical(d[4..]);
      var front, rest := [d[0], d[1], d[2], d[3]], Cleared(d[4..]);
      assert d == front + d[4..];
      assert (front + rest)[4..] == rest;
    }
  }

  lemma {:induction false} CanonicalLast(d: seq<sextet>)
    requires |d| % 4 == 3
    ensures Canonical(d) <==> d[|d| - 1] % 4 == 0
  {
    if |d| > 3 {
      CanonicalLast(d[4..]);
    } else {
      assert Trim(d[2], 4) == d[2] - d[2] % 4;
    }
  }

  // ----- One byte or digit at a time -----

  /** The value and the number of the bits read but not yet written. */
  datatype Pending = Pending(value: int, bits: int)

  /** What a step writes, and what it leaves pending. */
  datatype Step<T> = Step(next: Pending, out: seq<T>)

  /** All that is written from state `st` on. */
  function Emit<S, T>(step: (Pending, S) -> Step<T>, last: Pending -> seq<T>, st: Pending, input: seq<S>): seq<T>
    decreases |input|
  {
    if input == [] then last(st)
    else step(st, input[0]).out + Emit(step, last, step(st, input[0]).next, input[1..])
  }

  /** Out-of-range pending values, which never occur, read as zero. */
  function AsSextet(v: int): sextet { if 0 <= v < 64 then v else 0 }

  function AsByte(v: int): byte { if 0 <= v < 256 then v else 0 }

  function EncodeStep(st: Pending, b: byte): Step<sextet> {
    if st.bits == 2 then Step(Pending(b % 16, 4), [AsSextet(Digit2(st.value, b))])
    else if st.bits == 4 then Step(Pending(0, 0), [AsSextet(Digit3(st.value, b)), b % 64])
    else Step(Pending(b % 4, 2), [b / 4])
  }

  function EncodeLast(st: Pending): seq<sextet> {
    if st.bits == 2 then [AsSextet(Digit2(st.value, 0))] else if st.bits == 4 then [AsSextet(Digit3(st.value, 0))] else []
  }

  function DecodeStep(st: Pending, s: sextet): Step<byte> {
    if st.bits == 6 then Step(Pending(Low(s, 16), 4), [AsByte(Octet1(st.value, s))])
    else if st.bits == 4 then Step(Pending(Low(s, 4), 2), [AsByte(Octet2(st.value, s))])
    else if st.bits == 2 then Step(Pending(0, 0), [AsByte(Octet3(st.value, s))])
    else Step(Pending(s, 6), [])
  }

  function Nothing(st: Pending): seq<byte> {
    []
  }

  const START: Pending := Pending(0, 0)

  lemma EmitHead<S, T>(step: (Pending, S) -> Step<T>, last: Pending -> seq<T>, st: Pending, input: seq<S>)
    requires input != []
    ensures Emit(step, last, st, input) == step(st, input[0]).out + Emit(step, last, step(st, input[0]).next, input[1..])
  {
  }

  ghost predicate OneSplit(step: (Pending, byte) -> Step<sextet>, last: Pending -> seq<sextet>, split: Octets -> Sextets, x: byte) {
    var r, s := step(START, x), split(Octets(x, 0, 0));
    r.out + last(r.next) == [s.a, s.b]
  }

  ghost predicate TwoSplit(step: (Pending, byte) -> Step<sextet>, last: Pending -> seq<sextet>, split: Octets -> Sextets, x: byte, y: byte) {
    var r := step(START, x);
    var q, s := step(r.next, y), split(Octets(x, y, 0));
    r.out + q.out + last(q.next) == [s.a, s.b, s.c]
  }

  ghost predicate ThreeSplit(step: (Pending, byte) -> Step<sextet>, split: Octets -> Sextets, x: byte, y: byte, z: byte) {
    var r := step(START, x);
    var q := step(r.next, y);
    var w, s := step(q.next, z), split(Octets(x, y, z));
    r.out + q.out + w.out == [s.a, s.b, s.c, s.d] && w.next == START
  }

  /** The steps over a group come to the group's digits and leave nothing pending. */
  ghost predicate StepsSplit(step: (Pending, byte) -> Step<sextet>, last: Pending -> seq<sextet>, split: Octets -> Sextets) {
    && last(START) == []
    && (forall x :: OneSplit(step, last, split, x))
    && (forall x, y :: TwoSplit(step, last, split, x, y))
    && (forall x, y, z :: ThreeSplit(step, split, x, y, z))
  }

  lemma Regroup<T>(a: seq<T>, b: seq<T>, c: seq<T>, d: seq<T>)
    ensures a + (b + (c + d)) == a + b + c + d
  {
  }

  lemma EmitGroup(
    step: (Pending, byte) -> Step<sextet>, last: Pending -> seq<sextet>, split: Octets -> Sextets, bytes: seq<byte>)
    requires StepsSplit(step, last, split) && |bytes| >= 3
    ensures var s := split(Octets(bytes[0], bytes[1], bytes[2]));
            Emit(step, last, START, bytes) == [s.a, s.b, s.c, s.d] + Emit(step, last, START, bytes[3..])
  {
    var x, y, z, rest := bytes[0], bytes[1], bytes[2], bytes[3..];
    var r := step(START, x);
    var q := step(r.next, y);
    var w := step(q.next, z);
    assert ThreeSplit(step, split, x, y, z);
    EmitHead(step, last, START, bytes);
    EmitHead(step, last, r.next, bytes[1..]);
    EmitHead(step, last, q.next, bytes[2..]);
    Regroup(r.out, q.out, w.out, Emit(step, last, START, rest));
  }

  lemma EmitOneByte(
    step: (Pending, byte) -> Step<sextet>, last: Pending -> seq<sextet>, split: Octets -> Sextets, x: byte)
    requires StepsSplit(step, last, split)
    ensures Emit(step, last, START, [x]) == EncodeBy(split, [x])
  {
    assert OneSplit(step, last, split, x);
    EmitHead(step, last, START, [x]);
  }

  lemma EmitTwoBytes(
    step: (Pending, byte) -> Step<sextet>, last: Pending -> seq<sextet>, split: Octets -> Sextets, x: byte, y: byte)
    requires StepsSplit(step, last, split)
    ensures Emit(step, last, START, [x, y]) == EncodeBy(split, [x, y])
  {
    var r := step(START, x);
    var q := step(r.next, y);
    assert TwoSplit(step, last, split, x, y);
    EmitHead(step, last, START, [x, y]);
    assert [x, y][1..] == [y];
    EmitHead(step, last, r.next, [y]);
    assert [y][1..] == [];
    assert r.out + (q.out + last(q.next)) == r.out + q.out + last(q.next);
  }

  lemma {:induction false} EmitIsEncodeBy(
    step: (Pending, byte) -> Step<sextet>, last: Pending -> seq<sextet>, split: Octets -> Sextets, bytes: seq<byte>)
    requires StepsSplit(step, last, split)
    ensures Emit(step, last, START, bytes) == EncodeBy(split, bytes)
  {
    if |bytes| == 1 {
      EmitOneByte(step, last, split, bytes[0]);
      assert bytes == [bytes[0]];
    } else if |bytes| == 2 {
      EmitTwoBytes(step, last, split, bytes[0], bytes[1]);
      assert bytes == [bytes[0], bytes[1]];
    } else if |bytes| >= 3 {
      EmitGroup(step, last, split, bytes);
      EmitIsEncodeBy(step, last, split, bytes[3..]);
    }
  }

  /** The steps over one group. */
  lemma EncodeGroup(x: byte, y: byte, z: byte)
    ensures var s := Split(Octets(x, y, z));
            && EncodeStep(START, x) == Step(Pending(x % 4, 2), [s.a])
            && EncodeStep(Pending(x % 4, 2), y) == Step(Pending(y % 16, 4), [s.b])
            && EncodeStep(Pending(y % 16, 4), z) == Step(START, [s.c, s.d])
  {
  }

  /** What follows if the group ends early. */
  lemma EncodeEnd(x: byte, y: byte)
    ensures EncodeLast(Pending(x % 4, 2)) == [Split(Octets(x, 0, 0)).b]
    ensures EncodeLast(Pending(y % 16, 4)) == [Split(Octets(x, y, 0)).c]
  {
  }

  lemma EncodeStepsSplit()
    ensures StepsSplit(EncodeStep, EncodeLast, Split)
  {
    forall x ensures OneSplit(EncodeStep, EncodeLast, Split, x) {
      EncodeGroup(x, 0, 0);
      EncodeEnd(x, 0);
    }
    forall x, y ensures TwoSplit(EncodeStep, EncodeLast, Split, x, y) {
      EncodeGroup(x, y, 0);
      EncodeEnd(x, y);
    }
    forall x, y, z ensures ThreeSplit(EncodeStep, Split, x, y, z) {
      EncodeGroup(x, y, z);
    }
  }

  /** Reading byte by byte computes the groups of RFC 4648. */
  lemma EmitIsEncode(bytes: seq<byte>)
    ensures Emit(EncodeStep, EncodeLast, START, bytes) == Encode(bytes)
  {
    EncodeStepsSplit();
    EmitIsEncodeBy(EncodeStep, EncodeLast, Split, bytes);
  }

  ghost predicate FourJoin(step: (Pending, sextet) -> Step<byte>, join: Sextets -> Octets, a: sextet, b: sextet, c: sextet, d: sextet) {
    var r := step(START, a);
    var q := step(r.next, b);
    var w := step(q.next, c);
    var v, o := step(w.next, d), join(Sextets(a, b, c, d));
    r.out == [] && q.out == [o.x] && w.out == [o.y] && v.out == [o.z] && v.next == START
  }

  ghost predicate StepsJoin(step: (Pending, sextet) -> Step<byte>, last: Pending -> seq<byte>, join: Sextets -> Octets) {
    && (forall st :: last(st) == [])
    && (forall a, b, c, d :: FourJoin(step, join, a, b, c, d))
  }

  lemma EmitDigits(
    step: (Pending, sextet) -> Step<byte>, last: Pending -> seq<byte>, join: Sextets -> Octets, d: seq<sextet>)
    requires StepsJoin(step, last, join) && 0 < |d| < 4
    ensures Emit(step, last, START, d) == DecodeBy(join, d)
  {
    var r := step(START, d[0]);
    assert FourJoin(step, join, d[0], if |d| > 1 then d[1] else 0, if |d| > 2 then d[2] else 0, 0);
    EmitHead(step, last, START, d);
    if |d| >= 2 {
      EmitHead(step, last, r.next, d[1..]);
      if |d| == 3 {
        EmitHead(step, last, step(r.next, d[1]).next, d[2..]);
      }
    }
  }

  lemma EmitFourDigits(
    step: (Pending, sextet) -> Step<byte>, last: Pending -> seq<byte>, join: Sextets -> Octets, d: seq<sextet>)
    requires StepsJoin(step, last, join) && |d| >= 4
    ensures var o := join(Sextets(d[0], d[1], d[2], d[3]));
            Emit(step, last, START, d) == [o.x, o.y, o.z] + Emit(step, last, START, d[4..])
  {
    var r := step(START, d[0]);
    var q := step(r.next, d[1]);
    var w := step(q.next, d[2]);
    var o, rest := join(Sextets(d[0], d[1], d[2], d[3])), Emit(step, last, START, d[4..]);
    assert FourJoin(step, join, d[0], d[1], d[2], d[3]);
    EmitHead(step, last, w.next, d[3..]);
    assert d[3..][1..] == d[4..];
    assert Emit(step, last, w.next, d[3..]) == [o.z] + rest;
    EmitHead(step, last, q.next, d[2..]);
    assert d[2..][1..] == d[3..];
    assert Emit(step, last, q.next, d[2..]) == [o.y] + ([o.z] + rest);
    EmitHead(step, last, r.next, d[1..]);
    assert d[1..][1..] == d[2..];
    EmitHead(step, last, START, d);
    Regroup([o.x], [o.y], [o.z], rest);
  }

  lemma {:induction false} EmitIsDecodeBy(
    step: (Pending, sextet) -> Step<byte>, last: Pending -> seq<byte>, join: Sextets -> Octets, d: seq<sextet>)
    requires StepsJoin(step, last, join)
    ensures Emit(step, last, START, d) == DecodeBy(join, d)
  {
    if |d| >= 4 {
      EmitFourDigits(step, last, join, d);
      EmitIsDecodeBy(step, last, join, d[4..]);
    } else if d != [] {
      EmitDigits(step, last, join, d);
    }
  }

  lemma DecodeGroup(a: sextet, b: sextet, c: sextet, d: sextet)
    ensures var o := Join(Sextets(a, b, c, d));
            && DecodeStep(START, a) == Step(Pending(a, 6), [])
            && DecodeStep(Pending(a, 6), b) == Step(Pending(Low(b, 16), 4), [o.x])
            && DecodeStep(Pending(Low(b, 16), 4), c) == Step(Pending(Low(c, 4), 2), [o.y])
            && DecodeStep(Pending(Low(c, 4), 2), d) == Step(START, [o.z])
  {
  }

  lemma DecodeStepsJoin()
    ensures StepsJoin(DecodeStep, Nothing, Join)
  {
    forall a, b, c, d ensures FourJoin(DecodeStep, Join, a, b, c, d) {
      DecodeGroup(a, b, c, d);
    }
  }

  lemma EmitIsDecode(d: seq<sextet>)
    ensures Emit(DecodeStep, Nothing, START, d) == Decode(d)
  {
    DecodeStepsJoin();
    EmitIsDecodeBy(DecodeStep, Nothing, Join, d);
  }

  // ----- The bit buffer -----

  predicate Width(n: int) {
    n == 0 || n == 2 || n == 4 || n == 6 || n == 8 || n == 10 || n == 12
  }

  function Pow2(n: int): int
    requires Width(n)
  {
    if n == 0 then 1 else if n == 2 then 4 else if n == 4 then 16 else if n == 6 then 64
    else if n == 8 then 256 else if n == 10 then 1024 else 4096
  }

  /** Shifting `width` bits into a `u32`, whose oldest bits fall out at the top. */
  function ShiftIn(buffer: int, width: int, value: int): int
    requires Width(width)
  {
    buffer * Pow2(width) % U32 + value
  }

  lemma Distribute(q: int, m: int, p: int, w: int)
    ensures (q * m + p) * w == q * (m * w) + p * w
  {
  }

  lemma Associate(k: int, c: int, x: int)
    ensures k * (c * x) == (k * c) * x
  {
  }

  /** A number below `m` and a digit below `w` make a number below `m * w`. */
  lemma Positional(p: int, m: int, v: int, w: int)
    requires 0 <= p < m && 0 <= v < w
    ensures 0 <= p * w + v < m * w
  {
    assert 0 <= p * w <= (m - 1) * w;
  }

  lemma ShiftedFits(buffer: int, w: int, value: int, c: int)
    requires 0 <= buffer && 0 <= value < w && 0 < c
    ensures 0 <= buffer * w % (c * w) + value < c * w
  {
    var k, r := buffer / c, buffer % c;
    Distribute(k, c, r, w);
    Positional(r, c, 0, w);
    DivModUnique(buffer * w, c * w, k, r * w);
    Positional(r, c, value, w);
  }

  /** Taking a multiple of `n` away does not change what is left over by `n`. */
  lemma DropMultiple(y: int, n: int, c: int, q: int, r: int, value: int)
    requires 0 < n && 0 < c && y == q * n + r && 0 <= r + value < n
    ensures (y % (c * n) + value) % n == r + value
  {
    assert c * n > 0;
    var k := y / (c * n);
    Associate(k, c, n);
    assert y % (c * n) + value == q * n - (k * c) * n + (r + value);
    assert q * n - (k * c) * n == (q - k * c) * n;
    DivModUnique(y % (c * n) + value, n, q - k * c, r + value);
  }

  lemma ShiftedPending(buffer: int, m: int, w: int, value: int, c: int)
    requires 0 <= buffer && 0 < m && 0 <= value < w && 0 < c
    ensures (buffer * w % (c * (m * w)) + value) % (m * w) == buffer % m * w + value
  {
    var q, p := buffer / m, buffer % m;
    Distribute(q, m, p, w);
    Positional(p, m, value, w);
    DropMultiple(buffer * w, m * w, c, q, p * w, value);
  }

  lemma SplitTwice(x: int, a: int, w: int)
    requires 0 <= x && 0 < a && 0 < w
    ensures x / a % w == x % (w * a) / a && x % a == x % (w * a) % a
  {
    var y, r0 := x / a, x % a;
    var q1, r1 := y / w, y % w;
    Distribute(q1, w, r1, a);
    Positional(r1, w, r0, a);
    DivModUnique(x, w * a, q1, r1 * a + r0);
    DivModUnique(r1 * a + r0, a, r1, r0);
  }

  /** Dividing `p` followed by `w` more bits of value `v` by a part of them. */
  lemma DivideTail(p: int, v: int, a: int, c: int)
    requires 0 < a && 0 < c && 0 <= v < a * c
    ensures (p * (a * c) + v) / a == p * c + v / a && (p * (a * c) + v) % a == v % a
  {
    assert p * (a * c) + v == (p * c + v / a) * a + v % a;
    DivModUnique(p * (a * c) + v, a, p * c + v / a, v % a);
  }

  /** The state of the specification that a buffer with `bits` unread bits stands for. */
  function StateOf(buffer: int, bits: int): Pending
    requires Width(bits)
  {
    Pending(buffer % Pow2(bits), bits)
  }

  /** What fell out of the buffer is not among the pending bits. */
  lemma ShiftInPending(buffer: int, n: int, width: int, value: int)
    requires Width(n) && (width == 6 || width == 8) && Width(n + width) && 0 <= buffer < U32 && 0 <= value < Pow2(width)
    ensures ShiftIn(buffer, width, value) % Pow2(n + width) == buffer % Pow2(n) * Pow2(width) + value
    ensures 0 <= ShiftIn(buffer, width, value) < U32
  {
    var m, w := Pow2(n), Pow2(width);
    assert m * w == Pow2(n + width);
    var c := U32 / (m * w);
    assert c * (m * w) == U32 && (c * m) * w == U32;
    ShiftedPending(buffer, m, w, value, c);
    ShiftedFits(buffer, w, value, c * m);
  }

  /** Reading the oldest bits of the pending `a * w` and keeping the last `a`. */
  lemma ShiftOut(buffer: int, a: int, w: int, p: int, c: int, v: int)
    requires 0 <= buffer && 0 < a && 0 < w && 0 < c && 0 <= v < a * c
    requires buffer % (w * a) == p * (a * c) + v
    ensures buffer / a % w == p * c + v / a && buffer % a == v % a
  {
    SplitTwice(buffer, a, w);
    DivideTail(p, v, a, c);
  }

  /** The digits the inner loop of the encoder has still to write. */
  function Unwritten(buffer: int, bits: int): seq<sextet>
    requires Width(bits)
  {
    if bits < 6 then []
    else if bits < 12 then [buffer / Pow2(bits - 6) % 64]
    else [buffer / 64 % 64, buffer % 64]
  }

  lemma EncoderStep0(buffer: int, b: byte)
    requires 0 <= buffer < U32
    ensures var r, buffer' := EncodeStep(StateOf(buffer, 0), b), ShiftIn(buffer, 8, b);
            Unwritten(buffer', 8) == r.out && r.next == StateOf(buffer', 2)
  {
    ShiftInPending(buffer, 0, 8, b);
    ShiftOut(ShiftIn(buffer, 8, b), 4, 64, 0, 64, b);
  }

  lemma EncoderStep2(buffer: int, b: byte)
    requires 0 <= buffer < U32
    ensures var r, buffer' := EncodeStep(StateOf(buffer, 2), b), ShiftIn(buffer, 8, b);
            Unwritten(buffer', 10) == r.out && r.next == StateOf(buffer', 4)
  {
    var p := buffer % 4;
    ShiftInPending(buffer, 2, 8, b);
    ShiftOut(ShiftIn(buffer, 8, b), 16, 64, p, 16, b);
    assert 0 <= p * 16 + b / 16 < 64;
  }

  lemma EncoderStep4(buffer: int, b: byte)
    requires 0 <= buffer < U32
    ensures var r, buffer' := EncodeStep(StateOf(buffer, 4), b), ShiftIn(buffer, 8, b);
            Unwritten(buffer', 12) == r.out && r.next == StateOf(buffer', 0)
  {
    var p := buffer % 16;
    ShiftInPending(buffer, 4, 8, b);
    ShiftOut(ShiftIn(buffer, 8, b), 64, 64, p, 4, b);
    assert 0 <= p * 4 + b / 64 < 64;
  }

  function BitsAfter(bits: int): int {
    if bits >= 12 then bits - 12 else if bits >= 6 then bits - 6 else bits
  }

  /** A byte shifted into the buffer is a step of the specification. */
  lemma EncoderSteps(buffer: int, bits: int, b: byte)
    requires 0 <= buffer < U32 && (bits == 0 || bits == 2 || bits == 4)
    ensures var r, buffer' := EncodeStep(StateOf(buffer, bits), b), ShiftIn(buffer, 8, b);
            && 0 <= buffer' < U32
            && Unwritten(buffer', bits + 8) == r.out && r.next == StateOf(buffer', BitsAfter(bits + 8))
  {
    ShiftInPending(buffer, bits, 8, b);
    if bits == 0 {
      EncoderStep0(buffer, b);
    } else if bits == 2 {
      EncoderStep2(buffer, b);
    } else {
      EncoderStep4(buffer, b);
    }
  }

  lemma LastBits(buffer: int, m: int, w: int)
    requires 0 <= buffer && 0 < m && 0 < w && m * w == 64
    ensures buffer * w % U32 % 64 == buffer % m * w && 0 <= buffer % m * w < 64
  {
    var c := U32 / 64;
    assert c * (m * w) == U32;
    ShiftedPending(buffer, m, w, 0, c);
    Positional(buffer % m, m, 0, w);
  }

  /** The encoder's last digit: the pending bits, then zeros. */
  lemma EncoderLast(buffer: int, bits: int)
    requires 0 <= buffer < U32 && (bits == 2 || bits == 4)
    ensures EncodeLast(StateOf(buffer, bits)) == [buffer * Pow2(6 - bits) % U32 % 64]
  {
    LastBits(buffer, Pow2(bits), Pow2(6 - bits));
  }

  lemma DecoderStep6(buffer: int, s: sextet)
    requires 0 <= buffer < U32
    ensures var r, buffer' := DecodeStep(StateOf(buffer, 6), s), ShiftIn(buffer, 6, s);
            r.out == [buffer' / 16 % 256] && r.next == StateOf(buffer', 4)
  {
    var p := buffer % 64;
    ShiftInPending(buffer, 6, 6, s);
    ShiftOut(ShiftIn(buffer, 6, s), 16, 256, p, 4, s);
    assert 0 <= p * 4 + s / 16 < 256;
  }

  lemma DecoderStep4(buffer: int, s: sextet)
    requires 0 <= buffer < U32
    ensures var r, buffer' := DecodeStep(StateOf(buffer, 4), s), ShiftIn(buffer, 6, s);
            r.out == [buffer' / 4 % 256] && r.next == StateOf(buffer', 2)
  {
    var p := buffer % 16;
    ShiftInPending(buffer, 4, 6, s);
    ShiftOut(ShiftIn(buffer, 6, s), 4, 256, p, 16, s);
    assert 0 <= p * 16 + s / 4 < 256;
  }

  lemma DecoderStep2(buffer: int, s: sextet)
    requires 0 <= buffer < U32
    ensures var r, buffer' := DecodeStep(StateOf(buffer, 2), s), ShiftIn(buffer, 6, s);
            r.out == [buffer' / 1 % 256] && r.next == StateOf(buffer', 0)
  {
    var p := buffer % 4;
    ShiftInPending(buffer, 2, 6, s);
    ShiftOut(ShiftIn(buffer, 6, s), 1, 256, p, 64, s);
    assert 0 <= p * 64 + s < 256;
  }

  /** A digit shifted into the buffer is a step of the specification. */
  lemma DecoderSteps(buffer: int, bits: int, s: sextet)
    requires 0 <= buffer < U32 && (bits == 0 || bits == 2 || bits == 4 || bits == 6)
    ensures var r, buffer' := DecodeStep(StateOf(buffer, bits), s), ShiftIn(buffer, 6, s);
            && 0 <= buffer' < U32
            && r.out == (if bits == 0 then [] else [buffer' / Pow2(bits - 2) % 256])
            && r.next == StateOf(buffer', if bits == 0 then 6 else bits - 2)
  {
    ShiftInPending(buffer, bits, 6, s);
    if bits == 6 {
      DecoderStep6(buffer, s);
    } else if bits == 4 {
      DecoderStep4(buffer, s);
    } else if bits == 2 {
      DecoderStep2(buffer, s);
    }
  }

  // ----- The loops -----

  /** After `i` bytes what is written and what is to come make the whole output. */
  ghost predicate Through<S, T>(
    step: (Pending, S) -> Step<T>, last: Pending -> seq<T>, input: seq<S>, i: nat, st: Pending, output: seq<T>)
  {
    i <= |input| && output + Emit(step, last, st, input[i..]) == Emit(step, last, START, input)
  }

  lemma ThroughStep<S, T>(
    step: (Pending, S) -> Step<T>, last: Pending -> seq<T>, input: seq<S>, i: nat, st: Pending, output: seq<T>)
    requires Through(step, last, input, i, st, output) && i < |input|
    ensures Through(step, last, input, i + 1, step(st, input[i]).next, output + step(st, input[i]).out)
  {
    EmitHead(step, last, st, input[i..]);
    assert input[i..][1..] == input[i + 1..];
  }

  lemma SymbolsSnoc(digits: seq<sextet>, v: sextet)
    ensures Symbols(digits + [v]) == Symbols(digits) + [Symbol(v)]
  {
  }

  /** One byte of `base64url`: shift it in, then write a digit while there are six bits. */
  method EncodeByte(buffer: int, bits: int, b: byte, output: seq<byte>, ghost digits: seq<sextet>)
    returns (buffer': int, bits': int, output': seq<byte>, ghost digits': seq<sextet>)
    requires 0 <= buffer < U32 && (bits == 0 || bits == 2 || bits == 4) && output == Symbols(digits)
    ensures 0 <= buffer' < U32 && (bits' == 0 || bits' == 2 || bits' == 4) && output' == Symbols(digits')
    ensures EncodeStep(StateOf(buffer, bits), b).next == StateOf(buffer', bits')
    ensures digits' == digits + EncodeStep(StateOf(buffer, bits), b).out
  {
    EncoderSteps(buffer, bits, b);
    ghost var target := digits + EncodeStep(StateOf(buffer, bits), b).out;
    buffer' := ShiftIn(buffer, 8, b);
    bits', output', digits' := bits + 8, output, digits;
    while bits' >= 6
      invariant Width(bits') && BitsAfter(bits') == BitsAfter(bits + 8)
      invariant output' == Symbols(digits') && digits' + Unwritten(buffer', bits') == target
    {
      bits' := bits' - 6;
      var digit: sextet := buffer' / Pow2(bits') % 64;
      SymbolsSnoc(digits', digit);
      output', digits' := output' + [Symbol(digit)], digits' + [digit];
    }
  }

  lemma ThroughAll<S, T>(
    step: (Pending, S) -> Step<T>, last: Pending -> seq<T>, input: seq<S>, st: Pending, output: seq<T>)
    requires Through(step, last, input, |input|, st, output)
    ensures output + last(st) == Emit(step, last, START, input)
  {
  }

  /** `base64url`, for any number of bytes. */
  method EncodeText(bytes: seq<byte>) returns (output: seq<byte>)
    ensures output == Symbols(Encode(bytes))
  {
    var buffer, bits := 0, 0;
    ghost var digits: seq<sextet> := [];
    output := [];
    for i := 0 to |bytes|
      invariant 0 <= buffer < U32 && (bits == 0 || bits == 2 || bits == 4)
      invariant output == Symbols(digits) && Through(EncodeStep, EncodeLast, bytes, i, StateOf(buffer, bits), digits)
    {
      ThroughStep(EncodeStep, EncodeLast, bytes, i, StateOf(buffer, bits), digits);
      buffer, bits, output, digits := EncodeByte(buffer, bits, bytes[i], output, digits);
    }
    ThroughAll(EncodeStep, EncodeLast, bytes, StateOf(buffer, bits), digits);
    EmitIsEncode(bytes);
    if bits > 0 {
      EncoderLast(buffer, bits);
      var digit: sextet := buffer * Pow2(6 - bits) % U32 % 64;
      SymbolsSnoc(digits, digit);
      output := output + [Symbol(digit)];
    }
  }

  /** One symbol of `decode_base64url`. */
  method DecodeDigit(buffer: int, bits: int, value: sextet, output: seq<byte>)
    returns (buffer': int, bits': int, output': seq<byte>)
    requires 0 <= buffer < U32 && (bits == 0 || bits == 2 || bits == 4 || bits == 6)
    ensures 0 <= buffer' < U32 && (bits' == 0 || bits' == 2 || bits' == 4 || bits' == 6)
    ensures DecodeStep(StateOf(buffer, bits), value).next == StateOf(buffer', bits')
    ensures output' == output + DecodeStep(StateOf(buffer, bits), value).out
  {
    DecoderSteps(buffer, bits, value);
    buffer' := ShiftIn(buffer, 6, value);
    bits', output' := bits + 6, output;
    if bits' >= 8 {
      bits' := bits' - 8;
      output' := output' + [buffer' / Pow2(bits') % 256];
    }
  }

  /** `decode_base64url`: nothing for an empty text or one outside the alphabet, else its octets. */
  method DecodeText(text: seq<byte>) returns (r: Option<seq<byte>>)
    ensures r == Decoded(text)
  {
    if text == [] || '=' as int in text {
      assert text != [] ==> exists i :: 0 <= i < |text| && text[i] == '=' as int && Value(text[i]).None?;
      return None;
    }
    ghost var d := Digits(text);
    var buffer, bits := 0, 0;
    var output: seq<byte> := [];
    for i := 0 to |text|
      invariant forall j :: 0 <= j < i ==> Value(text[j]).Some?
      invariant 0 <= buffer < U32 && (bits == 0 || bits == 2 || bits == 4 || bits == 6)
      invariant Through(DecodeStep, Nothing, d, i, StateOf(buffer, bits), output)
    {
      if Value(text[i]).None? {
        assert !InAlphabet(text);
        return None;
      }
      ThroughStep(DecodeStep, Nothing, d, i, StateOf(buffer, bits), output);
      buffer, bits, output := DecodeDigit(buffer, bits, Value(text[i]).value, output);
    }
    ThroughAll(DecodeStep, Nothing, d, StateOf(buffer, bits), output);
    EmitIsDecode(d);
    assert output + [] == output;
    r := Some(output);
  }

  function Decoded(text: seq<byte>): Option<seq<byte>> {
    if text != [] && InAlphabet(text) then Some(Decode(Digits(text))) else None
  }

  // ----- Tokens -----

  /** `base64url(raw)` for a 32-byte key. */
  function Token(raw: seq<byte>): seq<byte> {
    Symbols(Encode(raw))
  }

  /** Decoding inverts encoding for every byte string but the empty one, which is never issued. */
  lemma TokenRoundTrip(raw: seq<byte>)
    ensures |Token(raw)| == (|raw| * 8 + 5) / 6
    ensures raw != [] ==> Decoded(Token(raw)) == Some(raw)
  {
    EncodedLength(Split, raw);
    DigitsInvertSymbols(Encode(raw));
    DecodeInvertsEncode(raw);
  }

  /** The key a token stands for, as `validate` finds it. */
  function KeyOf(token: seq<byte>): Option<seq<byte>> {
    if |token| == 43 && Decoded(token).Some? && |Decoded(token).value| == 32 && Token(Decoded(token).value) == token
    then Decoded(token) else None
  }

  /** The checks of `validate` before it looks a token up. */
  method AcceptToken(token: seq<byte>) returns (raw: Option<seq<byte>>)
    ensures raw == KeyOf(token)
  {
    if |token| != 43 {
      return None;
    }
    var bytes := DecodeText(token);
    if bytes.None? || |bytes.value| != 32 {
      return None;
    }
    var again := EncodeText(bytes.value);
    if again != token {
      return None;
    }
    return bytes;
  }

  /** A token stands for a key exactly when it is that key's encoding. */
  lemma KeyOfInvertsToken(token: seq<byte>, raw: seq<byte>)
    ensures KeyOf(token) == Some(raw) <==> |raw| == 32 && token == Token(raw)
  {
    if |raw| == 32 && token == Token(raw) {
      TokenRoundTrip(raw);
    }
  }

  lemma CanonicalIffImage(d: seq<sextet>)
    ensures Encode(Decode(d)) == d <==> Canonical(d)
  {
    EncodeOfDecode(d);
    ClearedIffCanonical(d);
  }

  lemma TextIffDigits(text: seq<byte>, d: seq<sextet>)
    requires InAlphabet(text)
    ensures Symbols(d) == text <==> d == Digits(text)
  {
    DigitsInvertSymbols(d);
    SymbolsInvertDigits(text);
  }

  /** The checks for any codec whose decoder is inverted exactly on the canonical digits. */
  lemma ChecksMeanCanonical(encode: seq<byte> -> seq<sextet>, decode: seq<sextet> -> seq<byte>, token: seq<byte>)
    requires InAlphabet(token) && (encode(decode(Digits(token))) == Digits(token) <==> Canonical(Digits(token)))
    ensures Symbols(encode(decode(Digits(token)))) == token <==> Canonical(Digits(token))
  {
    TextIffDigits(token, encode(decode(Digits(token))));
  }

  lemma KeyIffCanonical(token: seq<byte>)
    requires |token| == 43 && InAlphabet(token)
    ensures KeyOf(token).Some? <==> Canonical(Digits(token))
  {
    DecodedLength(Join, Digits(token));
    CanonicalIffImage(Digits(token));
    ChecksMeanCanonical(Encode, Decode, token);
  }

  /** Which texts are tokens: 43 symbols of the alphabet, and no bit left over in the last. */
  lemma AcceptedTokens(token: seq<byte>)
    ensures KeyOf(token).Some? <==> |token| == 43 && InAlphabet(token) && Digits(token)[42] % 4 == 0
  {
    if |token| == 43 && InAlphabet(token) {
      KeyIffCanonical(token);
      CanonicalLast(Digits(token));
    }
  }
}
