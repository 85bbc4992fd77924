/** Dotted-decimal IPv4 text, as the allocator writes it (formatIPv4) and as it reads it back (net.ParseIP). */
module IPv4 {
  import opened Base

  type byte = n: int | 0 <= n < 0x100

  /** An octet in decimal, without leading zeros. */
  function Dec(b: byte): string {
    if b < 10 then [Digit(b)]
    else if b < 100 then [Digit(b / 10), Digit(b % 10)]
    else [Digit(b / 100), Digit(b / 10 % 10), Digit(b % 10)]
  }

  function Digit(d: nat): char
    requires d < 10
  {
    '0' + d as char
  }

  predicate IsDigit(c: char) {
    '0' <= c <= '9'
  }

  /** The octets of an address, most significant first, as binary.BigEndian writes them. */
  function Octets(n: uint32): seq<byte> {
    [n / 0x100_0000, n / 0x1_0000 % 0x100, n / 0x100 % 0x100, n % 0x100]
  }

  /** The number four octets stand for, as binary.BigEndian reads them. */
  function Number(o: seq<byte>): uint32
    requires |o| == 4
  {
    var a: int, b: int, c: int := o[0], o[1], o[2];
    a * 0x100_0000 + b * 0x1_0000 + c * 0x100 + o[3]
  }

  lemma NumberOfOctets(n: uint32)
    ensures Number(Octets(n)) == n
  {
    var c := n / 0x100;
    assert n / 0x1_0000 == c / 0x100;
    assert n / 0x100_0000 == c / 0x100 / 0x100;
  }

  lemma OctetsOfNumber(o: seq<byte>)
    requires |o| == 4
    ensures Octets(Number(o)) == o
  {
    Digits256(o[0], o[1], o[2], o[3]);
  }

  lemma Digits256(a: int, b: byte, c: byte, d: byte)
    requires 0 <= a
    ensures var n := a * 0x100_0000 + b * 0x1_0000 + c * 0x100 + d;
            n % 0x100 == d && n / 0x100 % 0x100 == c && n / 0x1_0000 % 0x100 == b && n / 0x100_0000 == a
  {
    var ab: int := a * 0x100 + b;
    var abc: int := ab * 0x100 + c;
    var n: int := abc * 0x100 + d;
    assert n / 0x100 == abc;
    assert n / 0x1_0000 == ab;
    assert n / 0x100_0000 == a;
  }

  /** Octets in decimal, each but the last followed by a dot. */
  function Dotted(fields: seq<byte>): string {
    if fields == [] then "" else Dec(fields[0]) + (if |fields| == 1 then "" else "." + Dotted(fields[1..]))
  }

  function FormatIPv4(n: uint32): string {
    Dotted(Octets(n))
  }

  /**
   The left-to-right scan of Go's dotted-quad parser: `fields` are the finished octets,
   `val` and `dig` the value and the number of digits of the octet being read.
   A leading zero, a value above 255, an empty octet and a fifth octet are errors.
   */
  function Scan(s: string, fields: seq<byte>, val: byte, dig: nat): Option<seq<byte>> {
    if s == [] then
      if |fields| < 3 || dig == 0 then None else Some(fields + [val])
    else if IsDigit(s[0]) then
      var val' := val * 10 + (s[0] - '0') as int;
      if (dig == 1 && val == 0) || val' > 255 then None
      else Scan(s[1..], fields, val', dig + 1)
    else if s[0] == '.' then
      if dig == 0 || |s| == 1 || |fields| >= 3 then None
      else Scan(s[1..], fields + [val], 0, 0)
    else None
  }

  function ParseIPv4(s: string): Option<uint32> {
    var r := Scan(s, [], 0, 0);
    if r.Some? && |r.value| == 4 then Some(Number(r.value)) else None
  }

  /** Reading one written octet leaves the scanner just behind it, holding its value. */
  lemma ScanDec(b: byte, rest: string, fields: seq<byte>)
    ensures Scan(Dec(b) + rest, fields, 0, 0) == Scan(rest, fields, b, |Dec(b)|)
  {
    var s := Dec(b) + rest;
    assert s[|Dec(b)|..] == rest;
    if 10 <= b {
      var one := if b < 100 then b / 10 else b / 100;
      assert Scan(s, fields, 0, 0) == Scan(s[1..], fields, one, 1);
      assert s[1..][1..] == s[2..];
      if 100 <= b {
        assert Scan(s[1..], fields, one, 1) == Scan(s[2..], fields, b / 10, 2);
        assert s[2..][1..] == s[3..];
      }
    }
  }

  lemma {:induction false} ScanDotted(fields: seq<byte>, todo: seq<byte>)
    requires todo != [] && |fields| + |todo| == 4
    ensures Scan(Dotted(todo), fields, 0, 0) == Some(fields + todo)
    decreases |todo|
  {
    var b := todo[0];
    if |todo| == 1 {
      ScanDec(b, "", fields);
      assert Dec(b) + "" == Dotted(todo);
      assert todo == [b];
    } else {
      var rest := Dotted(todo[1..]);
      ScanDec(b, "." + rest, fields);
      assert ("." + rest)[1..] == rest;
      ScanDotted(fields + [b], todo[1..]);
      assert fields + [b] + todo[1..] == fields + todo;
    }
  }

  /** Parsing what was formatted gives the number back. */
  lemma ParseFormat(n: uint32)
    ensures ParseIPv4(FormatIPv4(n)) == Some(n)
  {
    ScanDotted([], Octets(n));
    assert [] + Octets(n) == Octets(n);
    NumberOfOctets(n);
  }

  lemma DottedCons(a: byte, o: seq<byte>)
    requires o != []
    ensures Dotted([a] + o) == Dec(a) + "." + Dotted(o)
  {
    assert ([a] + o)[1..] == o;
  }

  lemma JoinRight(u: string, v: string, x: string, y: string)
    ensures u + "." + (v + "." + (x + "." + y)) == u + "." + v + "." + x + "." + y
  {
  }

  lemma DottedQuad(a: byte, b: byte, c: byte, d: byte)
    ensures Dotted([a, b, c, d]) == Dec(a) + "." + Dec(b) + "." + Dec(c) + "." + Dec(d)
  {
    var x, y, z := [d], [c, d], [b, c, d];
    assert Dotted(x) == Dec(d);
    assert Dotted(y) == Dec(c) + "." + Dotted(x) by { DottedCons(c, x); assert [c] + x == y; }
    assert Dotted(z) == Dec(b) + "." + Dotted(y) by { DottedCons(b, y); assert [b] + y == z; }
    assert Dotted([a, b, c, d]) == Dec(a) + "." + Dotted(z) by { DottedCons(a, z); assert [a] + z == [a, b, c, d]; }
    JoinRight(Dec(a), Dec(b), Dec(c), Dec(d));
  }

  /** The text of four octets reads as the number they make, the first octet being the most significant. */
  lemma ParseQuad(a: byte, b: byte, c: byte, d: byte)
    ensures ParseIPv4(Dec(a) + "." + Dec(b) + "." + Dec(c) + "." + Dec(d)) == Some(a * 0x100_0000 + b * 0x1_0000 + c * 0x100 + d)
  {
    DottedQuad(a, b, c, d);
    ScanDotted([], [a, b, c, d]);
    assert [] + [a, b, c, d] == [a, b, c, d];
  }

  lemma FormatInjective(m: uint32, n: uint32)
    requires FormatIPv4(m) == FormatIPv4(n)
    ensures m == n
  {
    ParseFormat(m);
    ParseFormat(n);
  }

  /** The text of the octet being read. */
  function Partial(val: byte, dig: nat): string {
    if dig == 0 then "" else Dec(val)
  }

  predicate Reading(val: byte, dig: nat) {
    if dig == 0 then val == 0 else dig == |Dec(val)|
  }

  /** One more digit extends the text of an octet, as long as it had no leading zero. */
  lemma DigitExtends(val: byte, dig: nat, c: char)
    requires IsDigit(c) && Reading(val, dig) && !(dig == 1 && val == 0) && val * 10 + (c - '0') as int < 256
    ensures Reading(val * 10 + (c - '0') as int, dig + 1)
    ensures Partial(val * 10 + (c - '0') as int, dig + 1) == Partial(val, dig) + [c]
  {
  }

  lemma DottedHead(o: seq<byte>, s: string)
    requires 2 <= |o| && s != [] && s[0] == '.' && Dotted(o[1..]) == s[1..]
    ensures Dotted(o) == Dec(o[0]) + s
  {
    assert s == "." + s[1..];
  }

  lemma ReadDigit(t: string, text: string, longer: string, s: string)
    requires s != [] && longer == text + [s[0]] && t == longer + s[1..]
    ensures t == text + s
  {
    assert s == [s[0]] + s[1..];
  }

  /** What an accepting scan read is the text of the octets it produced. */
  lemma {:induction false} ScanCanonical(s: string, fields: seq<byte>, val: byte, dig: nat, o: seq<byte>)
    requires |fields| <= 3 && Reading(val, dig) && Scan(s, fields, val, dig) == Some(o)
    ensures |o| == 4 && fields <= o && Dotted(o[|fields|..]) == Partial(val, dig) + s
    decreases |s|
  {
    if s == [] {
      assert o[|fields|..] == [val];
    } else if IsDigit(s[0]) {
      var val' := val * 10 + (s[0] - '0') as int;
      assert Scan(s[1..], fields, val', dig + 1) == Some(o);
      DigitExtends(val, dig, s[0]);
      ScanCanonical(s[1..], fields, val', dig + 1, o);
      ReadDigit(Dotted(o[|fields|..]), Partial(val, dig), Partial(val', dig + 1), s);
    } else {
      assert Scan(s[1..], fields + [val], 0, 0) == Some(o);
      ScanCanonical(s[1..], fields + [val], 0, 0, o);
      var t := o[|fields|..];
      assert t[1..] == o[|fields| + 1..] && t[0] == val;
      DottedHead(t, s);
    }
  }

  /** The parser accepts nothing but what the formatter writes: text and number determine each other. */
  lemma ParseIsFormatInverse(s: string, n: uint32)
    ensures ParseIPv4(s) == Some(n) <==> s == FormatIPv4(n)
  {
    if ParseIPv4(s) == Some(n) {
      var o := Scan(s, [], 0, 0).value;
      ScanCanonical(s, [], 0, 0, o);
      assert o[0..] == o;
      OctetsOfNumber(o);
    } else {
      ParseFormat(n);
    }
  }

  predicate Plain(s: string) {
    forall i :: 0 <= i < |s| ==> IsDigit(s[i]) || s[i] == '.'
  }

  lemma {:induction false} DottedIsPlain(fields: seq<byte>)
    ensures Plain(Dotted(fields)) && (fields != [] ==> Dotted(fields) != "")
  {
    if fields != [] {
      assert Plain(Dec(fields[0]));
      DottedIsPlain(fields[1..]);
    }
  }
}
