/** Deriving a libp2p peer id from a public key: base58btc, unsigned varints and the
    identity multihash around a protobuf-encoded key. */
module PeerId {
  import opened Reconciliation

  // ----- positional notation -----

  /** The value of big-endian digits. */
  function Value(base: nat, digits: seq<nat>): nat {
    if digits == [] then 0 else Value(base, digits[..|digits| - 1]) * base + digits[|digits| - 1]
  }

  /** The big-endian digits of a number, without leading zeros. */
  function Digits(base: nat, n: nat): (ds: seq<nat>)
    requires base >= 2
    ensures IsNumeral(base, ds)
    ensures n == 0 <==> ds == []
  {
    if n == 0 then [] else Digits(base, n / base) + [n % base]
  }

  predicate IsNumeral(base: nat, digits: seq<nat>) {
    (forall i :: 0 <= i < |digits| ==> digits[i] < base) && (digits != [] ==> digits[0] != 0)
  }

  lemma ValueSnoc(base: nat, init: seq<nat>, d: nat)
    ensures Value(base, init + [d]) == Value(base, init) * base + d
  {
    assert (init + [d])[..|init|] == init;
  }

  lemma Euclid(base: nat, n: nat)
    requires base > 0
    ensures n / base * base + n % base == n && n % base < base && n / base >= 0
  {
  }

  lemma {:induction false} ValueOfDigits(base: nat, n: nat)
    requires base >= 2
    ensures Value(base, Digits(base, n)) == n
  {
    if n != 0 {
      ValueOfDigits(base, n / base);
      ValueSnoc(base, Digits(base, n / base), n % base);
      Euclid(base, n);
    }
  }

  lemma SmallMultipleIsZero(k: int, base: int)
    requires -base < k * base < base
    ensures k == 0
  {
    assert k >= 1 ==> k * base >= base;
    assert k <= -1 ==> k * base <= -base;
  }

  lemma DivideBack(base: nat, q: nat, r: nat)
    requires r < base
    ensures (q * base + r) / base == q && (q * base + r) % base == r
  {
    var n := q * base + r;
    Euclid(base, n);
    assert (q - n / base) * base == n % base - r;
    SmallMultipleIsZero(q - n / base, base);
  }

  lemma DigitsSnoc(base: nat, q: nat, r: nat, n: nat)
    requires base >= 2 && r < base && n == q * base + r && n > 0
    ensures Digits(base, n) == Digits(base, q) + [r]
  {
    DivideBack(base, q, r);
  }

  lemma PositiveValue(base: nat, q: nat, r: nat)
    requires base >= 2 && (q > 0 || r > 0)
    ensures q * base + r > 0
  {
  }

  lemma {:induction false} DigitsOfValue(base: nat, digits: seq<nat>)
    requires base >= 2 && IsNumeral(base, digits)
    ensures Digits(base, Value(base, digits)) == digits
    ensures digits != [] ==> Value(base, digits) > 0
  {
    if digits != [] {
      var init, last := digits[..|digits| - 1], digits[|digits| - 1];
      DigitsOfValue(base, init);
      var q := Value(base, init);
      PositiveValue(base, q, last);
      DigitsSnoc(base, q, last, Value(base, digits));
      assert digits == init + [last];
    }
  }

  function Zeros(n: nat): seq<nat> {
    seq(n, _ => 0)
  }

  lemma {:induction false} LeadingZerosAddNothing(base: nat, z: nat, digits: seq<nat>)
    ensures Value(base, Zeros(z) + digits) == Value(base, digits)
  {
    var all := Zeros(z) + digits;
    if digits != [] {
      assert all[..|all| - 1] == Zeros(z) + digits[..|digits| - 1];
      LeadingZerosAddNothing(base, z, digits[..|digits| - 1]);
    } else if z > 0 {
      assert all[..z - 1] == Zeros(z - 1) + [];
      LeadingZerosAddNothing(base, z - 1, []);
    }
  }

  // ----- base58btc -----

  const ALPHABET := "123456789" + "ABCDEFGH" + "JKLMN" + "PQRSTUVWXYZ" + "abcdefghijk" + "mnopqrstuvwxyz"

  /** The place of a character in the alphabet. */
  function Place(c: char): nat {
    if '1' <= c <= '9' then c as int - '1' as int
    else if 'A' <= c <= 'H' then c as int - 'A' as int + 9
    else if 'J' <= c <= 'N' then c as int - 'J' as int + 17
    else if 'P' <= c <= 'Z' then c as int - 'P' as int + 22
    else if 'a' <= c <= 'k' then c as int - 'a' as int + 33
    else if 'm' <= c <= 'z' then c as int - 'm' as int + 44
    else 58
  }

  predicate RunsFrom(s: string, first: nat) {
    forall i :: 0 <= i < |s| ==> Place(s[i]) == first + i
  }

  lemma CapitalsRun()
    ensures RunsFrom("123456789", 0) && RunsFrom("ABCDEFGH", 9) && RunsFrom("JKLMN", 17)
  {
  }

  lemma MoreCapitalsRun()
    ensures RunsFrom("PQRSTUVWXYZ", 22)
  {
  }

  lemma SmallsRun()
    ensures RunsFrom("abcdefghijk", 33)
  {
  }

  lemma MoreSmallsRun()
    ensures RunsFrom("mnopqrstuvwxyz", 44)
  {
  }

  lemma PlaceInAlphabet(d: nat)
    requires d < 58
    ensures Place(ALPHABET[d]) == d
  {
    if d < 22 { CapitalsRun(); }
    else if d < 33 { MoreCapitalsRun(); }
    else if d < 44 { SmallsRun(); }
    else { MoreSmallsRun(); }
  }

  function Letters(digits: seq<nat>): (s: string)
    requires forall i :: 0 <= i < |digits| ==> digits[i] < 58
    ensures |s| == |digits|
  {
    seq(|digits|, i requires 0 <= i < |digits| => ALPHABET[digits[i]])
  }

  function Places(s: string): (ds: seq<nat>)
    ensures |ds| == |s|
  {
    seq(|s|, i requires 0 <= i < |s| => Place(s[i]))
  }

  lemma PlacesOfLetters(digits: seq<nat>)
    requires forall i :: 0 <= i < |digits| ==> digits[i] < 58
    ensures Places(Letters(digits)) == digits
  {
    forall i | 0 <= i < |digits| ensures Places(Letters(digits))[i] == digits[i] {
      PlaceInAlphabet(digits[i]);
    }
  }

  /** How many of the leading elements equal `x`. */
  function Leading<T(==)>(x: T, s: seq<T>): (n: nat)
    ensures n <= |s|
    ensures forall i :: 0 <= i < n ==> s[i] == x
    ensures n < |s| ==> s[n] != x
  {
    if s == [] || s[0] != x then 0 else 1 + Leading(x, s[1..])
  }

  lemma LeadingIs<T>(x: T, s: seq<T>, n: nat)
    requires n <= |s| && (forall i :: 0 <= i < n ==> s[i] == x) && (n < |s| ==> s[n] != x)
    ensures Leading(x, s) == n
  {
  }

  type Bytes = seq<nat>

  predicate IsBytes(s: Bytes) {
    forall i :: 0 <= i < |s| ==> s[i] < 256
  }

  function Ones(n: nat): string {
    seq(n, _ => '1')
  }

  function Base58(bytes: Bytes): string {
    Ones(Leading(0, bytes)) + Letters(Digits(58, Value(256, bytes)))
  }

  /** The positional decoder: leading `1`s are zero bytes, the rest is one number. */
  function FromBase58(s: string): Bytes {
    var z := Leading('1', s);
    var rest := Digits(256, Value(58, Places(s[z..])));
    Zeros(z) + rest
  }

  /** The decoder undoes the encoder on every byte string: the value and the number of
      leading zero bytes both survive, so no two byte strings share an encoding. */
  lemma Base58RoundTrip(bytes: Bytes)
    requires IsBytes(bytes)
    ensures FromBase58(Base58(bytes)) == bytes
    ensures Leading('1', Base58(bytes)) == Leading(0, bytes)
    ensures Value(58, Places(Base58(bytes))) == Value(256, bytes)
  {
    var z := Leading(0, bytes);
    var digits := Digits(58, Value(256, bytes));
    var s := Base58(bytes);
    assert bytes == Zeros(z) + bytes[z..];
    LeadingZerosAddNothing(256, z, bytes[z..]);
    DigitsOfValue(256, bytes[z..]);
    SymbolsOf(z, digits);
    ValueOfDigits(58, Value(256, bytes));
    LeadingZerosAddNothing(58, z, digits);
  }

  lemma SymbolsOf(z: nat, digits: seq<nat>)
    requires IsNumeral(58, digits)
    ensures var s := Ones(z) + Letters(digits);
      Leading('1', s) == z && Places(s[z..]) == digits && Places(s) == Zeros(z) + digits
  {
    var s := Ones(z) + Letters(digits);
    PlacesOfLetters(digits);
    if digits != [] { FirstLetter(digits); }
    LeadingIs('1', s, z);
    assert s[z..] == Letters(digits);
    PlacesJoin(Ones(z), Letters(digits));
    assert Places(Ones(z)) == Zeros(z);
  }

  lemma FirstLetter(digits: seq<nat>)
    requires IsNumeral(58, digits) && digits != []
    ensures Letters(digits)[0] != '1'
  {
    PlaceInAlphabet(digits[0]);
  }

  lemma PlacesJoin(s: string, t: string)
    ensures Places(s + t) == Places(s) + Places(t)
  {
  }

  lemma Base58IsInjective(a: Bytes, b: Bytes)
    requires IsBytes(a) && IsBytes(b)
    requires Base58(a) == Base58(b)
    ensures a == b
  {
    Base58RoundTrip(a);
    Base58RoundTrip(b);
  }

  method CountZeros(bytes: Bytes) returns (zeros: nat)
    ensures zeros == Leading(0, bytes)
  {
    zeros := 0;
    while zeros < |bytes| && bytes[zeros] == 0
      invariant zeros <= |bytes|
      invariant forall i :: 0 <= i < zeros ==> bytes[i] == 0
    {
      zeros := zeros + 1;
    }
    LeadingIs(0, bytes, zeros);
  }

  method PrependOnes(zeros: nat, s: string) returns (result: string)
    ensures result == Ones(zeros) + s
  {
    result := s;
    for i := 0 to zeros
      invariant result == Ones(i) + s
    {
      assert ['1'] + Ones(i) == Ones(i + 1);
      result := "1" + result;
    }
  }

  /** `base58btcEncode`; the empty input throws, because "0x" is no number. */
  method Base58Encode(bytes: Bytes) returns (r: Outcome<string>)
    ensures r.Thrown? <==> bytes == []
    ensures r.Done? ==> r.value == Base58(bytes)
  {
    var zeros := CountZeros(bytes);
    if bytes == [] {
      return Thrown("Cannot convert 0x to a BigInt");
    }
    var number := EncodeNumber(Value(256, bytes));
    var result := PrependOnes(zeros, number);
    r := Done(result);
  }

  lemma LettersSnoc(init: seq<nat>, d: nat)
    requires (forall i :: 0 <= i < |init| ==> init[i] < 58) && d < 58
    ensures Letters(init + [d]) == Letters(init) + [ALPHABET[d]]
  {
  }

  /** The division loop. */
  method EncodeNumber(n: nat) returns (result: string)
    ensures result == Letters(Digits(58, n))
  {
    var num := n;
    result := "";
    ghost var all := Letters(Digits(58, n));
    while num > 0
      invariant Letters(Digits(58, num)) + result == all
    {
      var remainder := num % 58;
      ghost var init := Digits(58, num / 58);
      LettersSnoc(init, remainder);
      assert Letters(init) + ([ALPHABET[remainder]] + result) == Letters(init) + [ALPHABET[remainder]] + result;
      num := num / 58;
      result := [ALPHABET[remainder]] + result;
    }
  }

  // ----- unsigned varints -----

  const TWO_32 := 0x1_0000_0000

  /** `value >>>= 7`, which also drops everything above 32 bits. */
  function ShiftSeven(value: nat): (r: nat)
    ensures value > 0x7f ==> r < value
  {
    (value % TWO_32) / 128
  }

  /** `(value & 0x7f) | 0x80`. */
  function MoreByte(value: nat): (b: nat)
    ensures 128 <= b < 256
  {
    value % 128 + 128
  }

  /** Seven bits at a time, low first. */
  function Varint(value: nat): (bytes: Bytes)
    ensures IsBytes(bytes)
  {
    if value <= 0x7f then [value] else [MoreByte(value)] + Varint(ShiftSeven(value))
  }

  /** The base-128 decoder: the number read, and the bytes left over. */
  function FromVarint(s: Bytes): Outcome<(nat, Bytes)> {
    if s == [] then Thrown("truncated")
    else if s[0] < 128 then Done((s[0], s[1..]))
    else
      match FromVarint(s[1..])
      case Thrown(e) => Thrown(e)
      case Done(p) => Done((s[0] - 128 + 128 * p.0, p.1))
  }

  /** Decoding stops exactly at the end of the encoding, whatever follows, and yields the
      value modulo 2^32. */
  lemma {:induction false} VarintRoundTrip(value: nat, tail: Bytes)
    ensures FromVarint(Varint(value) + tail) == Done((value % TWO_32, tail))
    decreases value
  {
    var s := Varint(value) + tail;
    if value <= 0x7f {
      assert s[1..] == tail;
    } else {
      var next := ShiftSeven(value);
      VarintRoundTrip(next, tail);
      assert s == [MoreByte(value)] + (Varint(next) + tail);
      OneMoreByte(value, Varint(next) + tail, next % TWO_32, tail);
      SevenBits(value);
    }
  }

  lemma OneMoreByte(value: nat, rest: Bytes, n: nat, tail: Bytes)
    requires FromVarint(rest) == Done((n, tail))
    ensures FromVarint([MoreByte(value)] + rest) == Done((value % 128 + 128 * n, tail))
  {
    assert ([MoreByte(value)] + rest)[1..] == rest;
  }

  lemma SevenBits(value: nat)
    ensures (value % TWO_32) / 128 % TWO_32 == (value % TWO_32) / 128
    ensures value % 128 + 128 * ((value % TWO_32) / 128) == value % TWO_32
  {
    var low := value % TWO_32;
    assert value == value / TWO_32 * TWO_32 + low;
    assert value % 128 == low % 128 by {
      assert value == (value / TWO_32 * 0x200_0000) * 128 + low;
      assert low == low / 128 * 128 + low % 128;
      DivideBack(128, value / TWO_32 * 0x200_0000 + low / 128, low % 128);
    }
  }

  /** The round trip is exact precisely below 2^32. */
  lemma VarintIsExactBelow32Bits(value: nat)
    ensures FromVarint(Varint(value)) == Done((value, [])) <==> value < TWO_32
  {
    VarintRoundTrip(value, []);
    var bytes := Varint(value);
    assert bytes + [] == bytes;
    TruncationIsIdentity(value);
    var read := FromVarint(bytes).value.0;
    assert read == value % TWO_32;
  }

  lemma TruncationIsIdentity(value: nat)
    ensures value % TWO_32 == value <==> value < TWO_32
  {
  }

  /** No encoding of a 32-bit value is a proper prefix of another's. */
  lemma VarintIsPrefixFree(v: nat, w: nat, tail: Bytes)
    requires v < TWO_32 && w < TWO_32
    requires Varint(v) + tail == Varint(w)
    ensures v == w && tail == []
  {
    VarintRoundTrip(v, tail);
    VarintRoundTrip(w, []);
    assert Varint(w) + [] == Varint(w);
  }

  /** `encodeVarint`. */
  method EncodeVarint(value: nat) returns (bytes: Bytes)
    ensures bytes == Varint(value)
  {
    var cur: nat := value;
    bytes := [];
    while cur > 0x7f
      invariant bytes + Varint(cur) == Varint(value)
      decreases cur
    {
      ghost var rest := Varint(ShiftSeven(cur));
      assert bytes + [MoreByte(cur)] + rest == bytes + ([MoreByte(cur)] + rest);
      bytes := bytes + [MoreByte(cur)];
      cur := ShiftSeven(cur);
    }
    bytes := bytes + [cur];
  }

  // ----- the peer id -----

  function Protobuf(key: Bytes): Bytes {
    [0x08, 0x01, 0x12, 0x20] + key
  }

  /** The identity multihash of the protobuf-encoded Ed25519 key. */
  function Multihash(key: Bytes): Bytes {
    [0x00] + (Varint(|Protobuf(key)|) + Protobuf(key))
  }

  lemma ParseMultihash(key: Bytes)
    ensures FromVarint(Multihash(key)[1..]) == Done((|Protobuf(key)| % TWO_32, Protobuf(key)))
  {
    var body := Protobuf(key);
    VarintRoundTrip(|body|, body);
    assert Multihash(key)[1..] == Varint(|body|) + body;
  }

  /** A peer id determines its public key. */
  lemma PeerIdDeterminesKey(a: Bytes, b: Bytes)
    requires IsBytes(a) && IsBytes(b)
    requires Base58(Multihash(a)) == Base58(Multihash(b))
    ensures a == b
  {
    Base58IsInjective(Multihash(a), Multihash(b));
    ParseMultihash(a);
    ParseMultihash(b);
    assert a == Protobuf(a)[4..] && b == Protobuf(b)[4..];
  }

  // ----- what every peer id begins with -----

  function Power(base: nat, k: nat): nat {
    if k == 0 then 1 else Power(base, k - 1) * base
  }

  lemma {:induction false} PowerSplits(base: nat, j: nat, k: nat)
    ensures Power(base, j + k) == Power(base, j) * Power(base, k)
  {
    if k > 0 {
      PowerSplits(base, j, k - 1);
      assert Power(base, j) * Power(base, k - 1) * base == Power(base, j) * (Power(base, k - 1) * base);
    }
  }

  lemma {:induction false} ValueJoins(base: nat, s: seq<nat>, t: seq<nat>)
    ensures Value(base, s + t) == Value(base, s) * Power(base, |t|) + Value(base, t)
  {
    if t == [] {
      assert s + t == s;
    } else {
      var n := |t| - 1;
      ValueJoins(base, s, t[..n]);
      assert (s + t)[..|s + t| - 1] == s + t[..n];
      var v, p := Value(base, s), Power(base, n);
      assert (v * p + Value(base, t[..n])) * base == v * (p * base) + Value(base, t[..n]) * base;
    }
  }

  lemma {:induction false} ValueIsBelow(base: nat, s: seq<nat>)
    requires forall i :: 0 <= i < |s| ==> s[i] < base
    ensures Value(base, s) < Power(base, |s|)
  {
    if s != [] {
      ValueIsBelow(base, s[..|s| - 1]);
      StepBelow(base, Value(base, s[..|s| - 1]), s[|s| - 1], Power(base, |s| - 1));
    }
  }

  lemma StepBelow(base: nat, v: nat, d: nat, p: nat)
    requires v < p && d < base
    ensures v * base + d < p * base
  {
    assert (v + 1) * base <= p * base;
  }

  /** The leading digits of a number are those of what lies `k` places up. */
  lemma {:induction false} LeadingDigits(base: nat, c: nat, k: nat, n: nat)
    requires base >= 2 && c > 0 && c * Power(base, k) <= n < (c + 1) * Power(base, k)
    ensures Digits(base, c) <= Digits(base, n)
  {
    if k > 0 {
      var p := Power(base, k - 1);
      OnePlaceUp(base, c, p, n);
      LeadingDigits(base, c, k - 1, n / base);
    }
  }

  lemma OnePlaceUp(base: nat, c: nat, p: nat, n: nat)
    requires base >= 2 && c > 0 && c * (p * base) <= n < (c + 1) * (p * base)
    ensures c * p <= n / base < (c + 1) * p && n > 0
  {
    var q, r := n / base, n % base;
    Euclid(base, n);
    PlaceBounds(base, c * p, q, r);
    PlaceBounds(base, (c + 1) * p, q, r);
    assert c * (p * base) == c * p * base && (c + 1) * (p * base) == (c + 1) * p * base;
  }

  lemma PlaceBounds(base: nat, a: nat, q: nat, r: nat)
    requires base >= 2 && r < base
    ensures a * base <= q * base + r <==> a <= q
  {
    if a <= q {
      assert a * base <= q * base;
    } else {
      assert (q + 1) * base <= a * base;
    }
  }

  lemma PowersOf256()
    ensures Power(256, 32) == 115792089237316195423570985008687907853269984665640564039457584007913129639936
  {
    PowerSplits(256, 1, 1);
    PowerSplits(256, 2, 2);
    PowerSplits(256, 4, 4);
    PowerSplits(256, 8, 8);
    PowerSplits(256, 16, 16);
  }

  lemma PowersOf58()
    ensures Power(58, 44) == 389790918707373377135528568990913592653094657612049369038476873218241589149696
  {
    PowerSplits(58, 1, 1);
    PowerSplits(58, 2, 2);
    PowerSplits(58, 4, 4);
    PowerSplits(58, 8, 2);
    PowerSplits(58, 10, 1);
    PowerSplits(58, 11, 11);
    PowerSplits(58, 22, 22);
  }

  /** What precedes a 32-byte key: identity multihash, length 36, key type Ed25519, length 32. */
  const HEADER: Bytes := [0x00, 0x24, 0x08, 0x01, 0x12, 0x20]

  lemma MultihashOfKey(key: Bytes)
    requires |key| == 32
    ensures Multihash(key) == HEADER + key
  {
    assert |Protobuf(key)| == 36 && Varint(36) == [36];
  }

  lemma HeaderValue()
    ensures Value(256, HEADER) == 154753110560
  {
    ValueOfPrefix(256, HEADER, 0);
    ValueOfPrefix(256, HEADER, 1);
    ValueOfPrefix(256, HEADER, 2);
    ValueOfPrefix(256, HEADER, 3);
    ValueOfPrefix(256, HEADER, 4);
    ValueOfPrefix(256, HEADER, 5);
    assert HEADER[..6] == HEADER && HEADER[..0] == [];
  }

  lemma ValueOfPrefix(base: nat, s: seq<nat>, n: nat)
    requires n < |s|
    ensures Value(base, s[..n + 1]) == Value(base, s[..n]) * base + s[n]
  {
    assert s[..n + 1][..n] == s[..n];
  }

  const HEAD: seq<nat> := [1, 12, 2, 18, 46, 46, 29]

  lemma HeadValue()
    ensures Value(58, HEAD) == 45971276209
  {
    ValueOfPrefix(58, HEAD, 0);
    ValueOfPrefix(58, HEAD, 1);
    ValueOfPrefix(58, HEAD, 2);
    ValueOfPrefix(58, HEAD, 3);
    ValueOfPrefix(58, HEAD, 4);
    ValueOfPrefix(58, HEAD, 5);
    ValueOfPrefix(58, HEAD, 6);
    assert HEAD[..7] == HEAD && HEAD[..0] == [];
  }

  lemma HeadDigits()
    ensures Digits(58, 45971276209) == HEAD
  {
    HeadValue();
    DigitsOfValue(58, HEAD);
  }

  lemma HeadLetters()
    ensures Letters(HEAD) == "2D3KooW"
  {
    assert ALPHABET[1] == '2' && ALPHABET[12] == 'D' && ALPHABET[2] == '3' && ALPHABET[18] == 'K';
    assert ALPHABET[46] == 'o' && ALPHABET[29] == 'W';
  }

  lemma OneLeadingZero(bytes: Bytes)
    requires |bytes| > 1 && bytes[0] == 0 && bytes[1] != 0
    ensures Ones(Leading(0, bytes)) == "1"
  {
    LeadingIs(0, bytes, 1);
  }

  lemma JoinBegins(x: string, y: string, z: string)
    requires y <= z
    ensures x + y <= x + z
  {
  }

  lemma LettersBegin(head: seq<nat>, digits: seq<nat>)
    requires head <= digits && IsNumeral(58, digits)
    ensures Letters(head) <= Letters(digits)
  {
  }

  /** Every peer id of a 32-byte key begins with 12D3KooW. */
  lemma PeerIdBegins(key: Bytes)
    requires IsBytes(key) && |key| == 32
    ensures "12D3KooW" <= Base58(Multihash(key))
  {
    MultihashOfKey(key);
    ValueJoins(256, HEADER, key);
    ValueIsBelow(256, key);
    HeaderValue();
    PowersOf256();
    PowersOf58();
    LeadingDigits(58, 45971276209, 44, Value(256, HEADER + key));
    HeadDigits();
    HeadLetters();
    OneLeadingZero(HEADER + key);
    var digits := Digits(58, Value(256, HEADER + key));
    LettersBegin(HEAD, digits);
    JoinBegins("1", Letters(HEAD), Letters(digits));
  }
}
