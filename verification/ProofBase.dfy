/**
 The byte layout a WOPI proof signs: three length-prefixed fields, for the access token, the
 uppercased URL and the timestamp. It decodes uniquely, so no two requests share a signed base.
 */
module ProofBase {
  import opened Basics

  const TWO_8: int := 0x100
  const TWO_16: int := 0x1_0000
  const TWO_24: int := 0x100_0000
  const TWO_32: int := 0x1_0000_0000
  const TWO_63: int := 0x8000_0000_0000_0000
  const TWO_64: int := 0x1_0000_0000_0000_0000

  // --------------------------------------------------------------- big endian

  /** binary.BigEndian.AppendUint32's four bytes. */
  function Bytes32(n: int): Bytes
    requires 0 <= n < TWO_32
  {
    [(n / TWO_24) as byte, (n / TWO_16 % TWO_8) as byte, (n / TWO_8 % TWO_8) as byte, (n % TWO_8) as byte]
  }

  function Read32(b: Bytes): int
    requires |b| == 4
  {
    b[0] as int * TWO_24 + b[1] as int * TWO_16 + b[2] as int * TWO_8 + b[3] as int
  }

  lemma Read32Inverts(n: int)
    requires 0 <= n < TWO_32
    ensures |Bytes32(n)| == 4 && Read32(Bytes32(n)) == n
  {
  }

  lemma LowByte(x: int, y: int)
    requires 0 <= x && 0 <= y < TWO_8
    ensures (x * TWO_8 + y) / TWO_8 == x && (x * TWO_8 + y) % TWO_8 == y
  {
  }

  lemma {:induction false} Bytes32Inverts(b: Bytes)
    requires |b| == 4
    ensures 0 <= Read32(b) < TWO_32 && Bytes32(Read32(b)) == b
  {
    var x0, x1, x2, x3 := b[0] as int, b[1] as int, b[2] as int, b[3] as int;
    var n1 := x0 * TWO_8 + x1;
    var n2 := n1 * TWO_8 + x2;
    LowByte(x0, x1);
    LowByte(n1, x2);
    LowByte(n2, x3);
    var n := Read32(b);
    assert n == n2 * TWO_8 + x3;
    assert n / TWO_16 == n / TWO_8 / TWO_8 && n / TWO_24 == n / TWO_8 / TWO_8 / TWO_8;
  }

  /** uint64(ticks): two's complement. */
  function Unsigned(ticks: int): int {
    if ticks < 0 then ticks + TWO_64 else ticks
  }

  predicate IsInt64(n: int) {
    -TWO_63 <= n < TWO_63
  }

  function Bytes64(n: int): Bytes
    requires 0 <= n < TWO_64
  {
    Bytes32(n / TWO_32) + Bytes32(n % TWO_32)
  }

  function Read64(b: Bytes): int
    requires |b| == 8
  {
    Read32(b[..4]) * TWO_32 + Read32(b[4..])
  }

  /** The signed value of eight bytes. */
  function ReadTicks(b: Bytes): int
    requires |b| == 8
  {
    var n := Read64(b);
    if n >= TWO_63 then n - TWO_64 else n
  }

  lemma {:induction false} ReadTicksInverts(ticks: int)
    requires IsInt64(ticks)
    ensures 0 <= Unsigned(ticks) < TWO_64
    ensures |Bytes64(Unsigned(ticks))| == 8 && ReadTicks(Bytes64(Unsigned(ticks))) == ticks
  {
    var n := Unsigned(ticks);
    Read32Inverts(n / TWO_32);
    Read32Inverts(n % TWO_32);
    assert Bytes64(n)[..4] == Bytes32(n / TWO_32) && Bytes64(n)[4..] == Bytes32(n % TWO_32);
  }

  lemma {:induction false} Bytes64Inverts(b: Bytes)
    requires |b| == 8
    ensures IsInt64(ReadTicks(b)) && 0 <= Unsigned(ReadTicks(b)) < TWO_64 && Bytes64(Unsigned(ReadTicks(b))) == b
  {
    Bytes32Inverts(b[..4]);
    Bytes32Inverts(b[4..]);
    assert Unsigned(ReadTicks(b)) == Read64(b);
    assert Read64(b) / TWO_32 == Read32(b[..4]) && Read64(b) % TWO_32 == Read32(b[4..]);
    assert b == b[..4] + b[4..];
  }

  // ------------------------------------------------------------------- layout

  function UpperByte(b: byte): byte {
    if 97 <= b <= 122 then b - 32 else b
  }

  /** strings.ToUpper on an ASCII URL. */
  function Upper(url: Bytes): Bytes {
    seq(|url|, i requires 0 <= i < |url| => UpperByte(url[i]))
  }

  /** uint32(len(...)) in front of the field: the length modulo 2^32. */
  function Field(data: Bytes): Bytes {
    Bytes32(|data| % TWO_32) + data
  }

  function Layout(token: Bytes, url: Bytes, ticks: int): Bytes
    requires IsInt64(ticks)
  {
    Field(token) + Field(url) + Field(Bytes64(Unsigned(ticks)))
  }

  /** The four bytes at `at` are n modulo 2^32, the most significant first. */
  predicate Spells(b: Bytes, at: nat, n: int) {
    at + 4 <= |b| &&
    b[at] as int * 0x100_0000 + b[at + 1] as int * 0x1_0000 + b[at + 2] as int * 0x100 + b[at + 3] as int
    == n % 0x1_0000_0000
  }

  lemma SpellsAt(before: Bytes, n: int, after: Bytes)
    ensures Spells(before + Bytes32(n % TWO_32) + after, |before|, n)
  {
    var b := before + Bytes32(n % TWO_32) + after;
    Read32Inverts(n % TWO_32);
    assert b[|before|..|before| + 4] == Bytes32(n % TWO_32);
    assert forall k :: 0 <= k < 4 ==> b[|before| + k] == Bytes32(n % TWO_32)[k];
  }

  /** A field inside a buffer: its length, then its bytes. */
  lemma FieldSpells(before: Bytes, data: Bytes, after: Bytes)
    ensures var b := before + Field(data) + after;
      && |b| == |before| + 4 + |data| + |after| && Spells(b, |before|, |data|)
      && b[|before| + 4..|before| + 4 + |data|] == data
  {
    assert before + Field(data) + after == before + Bytes32(|data| % TWO_32) + (data + after);
    SpellsAt(before, |data|, data + after);
  }

  /** The eight bytes of a number at the end of a buffer. */
  lemma StampSpells(before: Bytes, n: int)
    requires 0 <= n < TWO_64
    ensures var b := before + Bytes64(n); Spells(b, |before|, n / TWO_32) && Spells(b, |before| + 4, n)
  {
    HighSpells(before, n);
    LowSpells(before, n);
  }

  lemma WordSpells(before: Bytes, word: int, after: Bytes)
    requires 0 <= word < TWO_32
    ensures Spells(before + Bytes32(word) + after, |before|, word)
  {
    assert word % TWO_32 == word;
    SpellsAt(before, word, after);
  }

  lemma HighSpells(before: Bytes, n: int)
    requires 0 <= n < TWO_64
    ensures Spells(before + Bytes64(n), |before|, n / TWO_32)
  {
    assert before + Bytes64(n) == before + Bytes32(n / TWO_32) + Bytes32(n % TWO_32);
    WordSpells(before, n / TWO_32, Bytes32(n % TWO_32));
  }

  lemma LowSpells(before: Bytes, n: int)
    requires 0 <= n < TWO_64
    ensures Spells(before + Bytes64(n), |before| + 4, n)
  {
    var none: Bytes := [];
    var high, low := Bytes32(n / TWO_32), Bytes32(n % TWO_32);
    assert before + Bytes64(n) == (before + high) + low + none;
    SpellsAt(before + high, n, none);
  }

  lemma BaseBytes(token: Bytes, url: Bytes, ticks: int)
    requires IsInt64(ticks)
    ensures var b := Layout(token, url, ticks); var n := if ticks >= 0 then ticks else ticks + TWO_64;
      && |b| == |token| + |url| + 20
      && Spells(b, 0, |token|) && b[4..4 + |token|] == token
      && Spells(b, 4 + |token|, |url|) && b[8 + |token|..8 + |token| + |url|] == url
      && Spells(b, 8 + |token| + |url|, 8)
      && Spells(b, 12 + |token| + |url|, n / TWO_32) && Spells(b, 16 + |token| + |url|, n)
  {
    var n := Unsigned(ticks);
    var none: Bytes := [];
    var stamp := Bytes64(n);
    var b, head := Layout(token, url, ticks), Field(token) + Field(url);
    assert b == none + Field(token) + (Field(url) + Field(stamp));
    FieldSpells(none, token, Field(url) + Field(stamp));
    assert b == Field(token) + Field(url) + Field(stamp);
    FieldSpells(Field(token), url, Field(stamp));
    assert b == head + Field(stamp) + none;
    FieldSpells(head, stamp, none);
    assert b == (head + Bytes32(8)) + stamp;
    StampSpells(head + Bytes32(8), n);
  }

  method SignedBase(token: Bytes, url: Bytes, ticks: int) returns (buf: Bytes)
    requires IsInt64(ticks)
    ensures buf == Layout(token, Upper(url), ticks)
    ensures |buf| == |token| + |url| + 20
    ensures Spells(buf, 0, |token|) && buf[4..4 + |token|] == token
    ensures Spells(buf, 4 + |token|, |url|)
    ensures forall i :: 0 <= i < |url| ==>
      buf[8 + |token| + i] as int == if 97 <= url[i] <= 122 then url[i] as int - 32 else url[i] as int
    ensures Spells(buf, 8 + |token| + |url|, 8)
    ensures Spells(buf, 12 + |token| + |url|, (if ticks >= 0 then ticks else ticks + TWO_64) / TWO_32)
    ensures Spells(buf, 16 + |token| + |url|, if ticks >= 0 then ticks else ticks + TWO_64)
  {
    var urlBytes := Upper(url);
    buf := Bytes32(|token| % TWO_32);
    buf := buf + token;
    buf := buf + Bytes32(|urlBytes| % TWO_32);
    buf := buf + urlBytes;
    buf := buf + Bytes32(8);
    buf := buf + Bytes64(Unsigned(ticks));
    assert |Bytes64(Unsigned(ticks))| == 8;
    assert buf == (Field(token) + Field(urlBytes)) + Field(Bytes64(Unsigned(ticks)));
    BaseBytes(token, urlBytes, ticks);
    forall i | 0 <= i < |url| ensures buf[8 + |token| + i] == urlBytes[i] {
      assert buf[8 + |token|..8 + |token| + |urlBytes|][i] == urlBytes[i];
    }
  }

  // ------------------------------------------------------------------ decoding

  /** The field at the head of `b`, and what follows it. */
  function TakeField(b: Bytes): Option<(Bytes, Bytes)> {
    if |b| < 4 then None
    else
      var n := Read32(b[..4]);
      if |b| - 4 < n then None else Some((b[4..4 + n], b[4 + n..]))
  }

  datatype Decoded = Decoded(token: Bytes, url: Bytes, ticks: int)

  /** Reads three fields and nothing after them, the last of eight bytes. */
  function Decode(b: Bytes): Option<Decoded> {
    match TakeField(b)
    case None => None
    case Some((token, rest)) =>
      match TakeField(rest)
      case None => None
      case Some((url, last)) =>
        match TakeField(last)
        case None => None
        case Some((stamp, end)) =>
          if |stamp| == 8 && end == [] then Some(Decoded(token, url, ReadTicks(stamp))) else None
  }

  lemma {:induction false} TakesField(data: Bytes, rest: Bytes)
    requires |data| < TWO_32
    ensures TakeField(Field(data) + rest) == Some((data, rest))
  {
    var b := Field(data) + rest;
    Read32Inverts(|data|);
    assert b[..4] == Bytes32(|data|);
    assert b[4..4 + |data|] == data && b[4 + |data|..] == rest;
  }

  lemma {:induction false} TookField(b: Bytes)
    ensures TakeField(b).Some? ==>
      var (data, rest) := TakeField(b).value; |data| < TWO_32 && b == Field(data) + rest
  {
    if TakeField(b).Some? {
      Bytes32Inverts(b[..4]);
      var (data, rest) := TakeField(b).value;
      assert b == b[..4] + data + rest;
    }
  }

  /** The decoder recovers what was laid out, for fields shorter than 2^32 bytes. */
  lemma {:induction false} DecodesLayout(token: Bytes, url: Bytes, ticks: int)
    requires IsInt64(ticks) && |token| < TWO_32 && |url| < TWO_32
    ensures Decode(Layout(token, url, ticks)) == Some(Decoded(token, url, ticks))
  {
    var stamp := Bytes64(Unsigned(ticks));
    ReadTicksInverts(ticks);
    assert Layout(token, url, ticks) == Field(token) + (Field(url) + (Field(stamp) + []));
    TakesField(token, Field(url) + (Field(stamp) + []));
    TakesField(url, Field(stamp) + []);
    TakesField(stamp, []);
  }

  /** What it accepts is a layout, and of exactly what it returns. */
  lemma {:induction false} DecodedWasLaidOut(b: Bytes)
    requires Decode(b).Some?
    ensures var d := Decode(b).value;
      IsInt64(d.ticks) && |d.token| < TWO_32 && |d.url| < TWO_32 && b == Layout(d.token, d.url, d.ticks)
  {
    TookField(b);
    var (token, rest) := TakeField(b).value;
    TookField(rest);
    var (url, last) := TakeField(rest).value;
    TookField(last);
    var (stamp, end) := TakeField(last).value;
    Bytes64Inverts(stamp);
    assert b == Field(token) + Field(url) + Field(stamp);
  }

  /** Requests that differ in the token, the uppercased URL or the ticks never share a signed base. */
  lemma {:induction false} BasesDiffer(token: Bytes, url: Bytes, ticks: int, token': Bytes, url': Bytes, ticks': int)
    requires IsInt64(ticks) && IsInt64(ticks')
    requires |token| < TWO_32 && |url| < TWO_32 && |token'| < TWO_32 && |url'| < TWO_32
    ensures Layout(token, Upper(url), ticks) == Layout(token', Upper(url'), ticks') <==>
      token == token' && Upper(url) == Upper(url') && ticks == ticks'
  {
    DecodesLayout(token, Upper(url), ticks);
    DecodesLayout(token', Upper(url'), ticks');
  }

  /** Lower-case letters are raised and nothing else changes, so URLs that differ in letter case alone share it. */
  lemma UpperMeaning(url: Bytes, url': Bytes)
    ensures |Upper(url)| == |url| && forall i :: 0 <= i < |url| ==>
      Upper(url)[i] as int == if 97 <= url[i] <= 122 then url[i] as int - 32 else url[i] as int
    ensures Upper(url) == Upper(url') <==>
      |url| == |url'| && forall i :: 0 <= i < |url| ==>
        || url[i] == url'[i]
        || (97 <= url[i] <= 122 && url'[i] as int == url[i] as int - 32)
        || (97 <= url'[i] <= 122 && url[i] as int == url'[i] as int - 32)
  {
    if Upper(url) == Upper(url') {
      assert |Upper(url)| == |Upper(url')|;
      forall i | 0 <= i < |url| ensures UpperByte(url[i]) == UpperByte(url'[i]) {
        assert Upper(url)[i] == Upper(url')[i];
      }
    }
  }

  // -------------------------------------------------------------------- ticks

  const DOTNET_EPOCH_TICKS: int := 621355968000000000

  /** Go's integer division, which truncates toward zero. */
  function Quotient(a: int, b: int): int
    requires b > 0
  {
    if a >= 0 then a / b else -(-a / b)
  }

  function TimeToTicks(unixNano: int): int {
    DOTNET_EPOCH_TICKS + Quotient(unixNano, 100)
  }

  /**
   For every instant UnixNano can express the ticks are a positive 64-bit number, so the unsigned
   conversion keeps them; they never go backwards, and count 100 ns toward the Unix epoch on either side of it.
   */
  lemma TicksFit(unixNano: int, later: int)
    requires IsInt64(unixNano) && IsInt64(later) && unixNano <= later
    ensures IsInt64(TimeToTicks(unixNano)) && 0 < TimeToTicks(unixNano) <= TimeToTicks(later)
    ensures Unsigned(TimeToTicks(unixNano)) == TimeToTicks(unixNano)
    ensures TimeToTicks(0) == 621355968000000000
    ensures var rest := unixNano - 100 * (TimeToTicks(unixNano) - TimeToTicks(0));
      if unixNano >= 0 then 0 <= rest < 100 else -100 < rest <= 0
  {
  }
}
