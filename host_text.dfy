/** The text forms of hosts that the codec produces and consumes:
    decimal octets (`Number.prototype.toString` and `Number.parseInt`),
    splitting and joining on a separator (`String.prototype.split`,
    `Array.prototype.join`), and a textual IPv6 form. */
module HostText {
  import opened Basics

  predicate IsDigit(c: char) {
    '0' <= c <= '9'
  }

  predicate AllDigits(s: string) {
    forall i :: 0 <= i < |s| ==> IsDigit(s[i])
  }

  function DigitChar(d: nat): (c: char)
    requires d < 10
    ensures IsDigit(c)
  {
    ('0' as int + d) as char
  }

  function DigitValue(c: char): (d: nat)
    requires IsDigit(c)
    ensures d < 10
  {
    c as int - '0' as int
  }

  /** Decimal rendering of a non-negative integer, without leading zeros. */
  function Decimal(n: nat): (s: string)
    ensures 1 <= |s| && AllDigits(s)
    decreases n
  {
    if n < 10 then [DigitChar(n)] else Decimal(n / 10) + [DigitChar(n % 10)]
  }

  /** The value of a string of decimal digits. */
  function DigitsValue(s: string): nat
    requires AllDigits(s)
    decreases |s|
  {
    if s == [] then 0 else DigitsValue(s[..|s| - 1]) * 10 + DigitValue(s[|s| - 1])
  }

  lemma {:induction false} DecimalValue(n: nat)
    ensures DigitsValue(Decimal(n)) == n
    decreases n
  {
    if n >= 10 {
      DecimalValue(n / 10);
      var s := Decimal(n);
      assert s[..|s| - 1] == Decimal(n / 10);
    }
  }

  /** The longest prefix of `s` made of decimal digits. */
  function DigitPrefix(s: string): (p: string)
    ensures p <= s && AllDigits(p)
    ensures |p| < |s| ==> !IsDigit(s[|p|])
    decreases |s|
  {
    if s != [] && IsDigit(s[0]) then [s[0]] + DigitPrefix(s[1..]) else []
  }

  /** `Number.parseInt(s)` without a radix: an optional sign, then the
      longest run of decimal digits; `None` stands for `NaN`. */
  function ParseInt(s: string): (r: Option<int>)
    ensures r.Some? <==> (1 <= |s| && IsDigit(s[0]))
                         || (2 <= |s| && (s[0] == '-' || s[0] == '+') && IsDigit(s[1]))
    ensures r.Some? && s[0] != '-' ==> r.value >= 0
    ensures r.Some? && s[0] == '-' ==> r.value <= 0
  {
    if |s| > 0 && (s[0] == '-' || s[0] == '+') then
      var d := DigitPrefix(s[1..]);
      if d == [] then None
      else
        var v: int := DigitsValue(d);
        Some(if s[0] == '-' then -v else v)
    else
      var d := DigitPrefix(s);
      if d == [] then None else Some(DigitsValue(d))
  }

  lemma ParseIntOfDecimal(n: nat)
    ensures ParseInt(Decimal(n)) == Some(n)
  {
    var s := Decimal(n);
    assert IsDigit(s[0]);
    var p := DigitPrefix(s);
    assert p == s;
    DecimalValue(n);
  }

  /** `s.split(sep)`: the maximal separator-free pieces between separators. */
  function Split(s: string, sep: char): (parts: seq<string>)
    ensures 1 <= |parts|
    ensures forall i :: 0 <= i < |parts| ==> sep !in parts[i]
    decreases |s|
  {
    if s == [] then [[]]
    else
      var rest := Split(s[1..], sep);
      if s[0] == sep then [[]] + rest else [[s[0]] + rest[0]] + rest[1..]
  }

  /** `parts.join(sep)`. */
  function Join(parts: seq<string>, sep: char): (s: string)
    requires 1 <= |parts|
    ensures parts[0] <= s
    ensures sep in s <==> 1 < |parts| || sep in parts[0]
    decreases |parts|
  {
    if |parts| == 1 then parts[0] else parts[0] + [sep] + Join(parts[1..], sep)
  }

  lemma {:induction false} SplitPrefix(p: string, t: string, sep: char)
    requires sep !in p
    ensures Split(p + t, sep) == [p + Split(t, sep)[0]] + Split(t, sep)[1..]
    decreases |p|
  {
    if p == [] {
      assert p + t == t;
      var parts := Split(t, sep);
      assert p + parts[0] == parts[0];
      assert parts == [parts[0]] + parts[1..];
    } else {
      SplitPrefix(p[1..], t, sep);
      assert (p + t)[1..] == p[1..] + t;
      assert (p + t)[0] == p[0];
      assert [p[0]] + (p[1..] + Split(t, sep)[0]) == p + Split(t, sep)[0];
    }
  }

  /** Splitting undoes joining, when no piece holds the separator. */
  lemma {:induction false} SplitJoin(parts: seq<string>, sep: char)
    requires 1 <= |parts|
    requires forall i :: 0 <= i < |parts| ==> sep !in parts[i]
    ensures Split(Join(parts, sep), sep) == parts
    decreases |parts|
  {
    if |parts| == 1 {
      SplitPrefix(parts[0], [], sep);
      assert parts[0] + [] == parts[0];
    } else {
      var t := [sep] + Join(parts[1..], sep);
      assert Split(t, sep) == [[]] + parts[1..] by {
        SplitJoin(parts[1..], sep);
        assert t[1..] == Join(parts[1..], sep);
      }
      assert parts[0] + t == Join(parts, sep);
      SplitPrefix(parts[0], t, sep);
      assert parts[0] + [] == parts[0];
      assert [parts[0]] + parts[1..] == parts;
    }
  }

  lemma DigitsLackSeparator(s: string, sep: char)
    requires AllDigits(s) && !IsDigit(sep)
    ensures sep !in s
  {
    assert forall i :: 0 <= i < |s| ==> s[i] != sep;
  }

  /** The dotted-quad rendering of four octets. */
  function DottedQuad(q: seq<Byte>): (s: string)
    requires |q| == 4
    ensures Decimal(q[0]) <= s && '.' in s
  {
    Join([Decimal(q[0]), Decimal(q[1]), Decimal(q[2]), Decimal(q[3])], '.')
  }

  /** The loopback address 127.0.0.1 in dotted-quad text. */
  lemma LoopbackText()
    ensures DottedQuad([127, 0, 0, 1]) == "127.0.0.1"
  {
    assert Decimal(0) == "0" && Decimal(1) == "1";
    assert Decimal(12) == "12";
    assert Decimal(127) == "127";
    assert Join(["1"], '.') == "1";
    assert Join(["0", "1"], '.') == "0.1";
    assert Join(["0", "0", "1"], '.') == "0.0.1";
  }

  lemma SplitDottedQuad(q: seq<Byte>)
    requires |q| == 4
    ensures Split(DottedQuad(q), '.') == [Decimal(q[0]), Decimal(q[1]), Decimal(q[2]), Decimal(q[3])]
  {
    var parts := [Decimal(q[0]), Decimal(q[1]), Decimal(q[2]), Decimal(q[3])];
    forall i | 0 <= i < 4 ensures '.' !in parts[i] {
      DigitsLackSeparator(parts[i], '.');
    }
    SplitJoin(parts, '.');
  }

  // ---- IPv6 text -------------------------------------------------------

  /** Lower-case hexadecimal digit. */
  function HexDigit(d: nat): char
    requires d < 16
  {
    if d < 10 then ('0' as int + d) as char else ('a' as int + d - 10) as char
  }

  /** The value of a hexadecimal digit of either case. */
  function HexValue(c: char): Option<nat> {
    if '0' <= c <= '9' then Some(c as int - '0' as int)
    else if 'a' <= c <= 'f' then Some(c as int - 'a' as int + 10)
    else if 'A' <= c <= 'F' then Some(c as int - 'A' as int + 10)
    else None
  }

  lemma HexValueOfDigit(d: nat)
    requires d < 16
    ensures HexValue(HexDigit(d)) == Some(d)
  {
  }

  /** One group of the IPv6 text: two octets as four hex digits. */
  function HexGroup(hi: Byte, lo: Byte): (g: string)
    ensures |g| == 4 && ':' !in g
  {
    [HexDigit(hi / 16), HexDigit(hi % 16), HexDigit(lo / 16), HexDigit(lo % 16)]
  }

  function Groups(b: seq<Byte>): (gs: seq<string>)
    requires |b| % 2 == 0
    ensures |gs| == |b| / 2
    ensures forall i :: 0 <= i < |gs| ==> ':' !in gs[i]
    decreases |b|
  {
    if b == [] then [] else [HexGroup(b[0], b[1])] + Groups(b[2..])
  }

  /** The text of a 16-octet IPv6 address: eight colon-separated groups. */
  function Ipv6Text(b: seq<Byte>): (s: string)
    requires |b| == 16
    ensures Split(s, ':') == Groups(b) && |Split(s, ':')| == 8
  {
    SplitJoin(Groups(b), ':');
    Join(Groups(b), ':')
  }

  function ParseGroup(g: string): (r: Option<seq<Byte>>)
    ensures r.Some? ==> |r.value| == 2
  {
    if |g| != 4 then None
    else
      match (HexValue(g[0]), HexValue(g[1]), HexValue(g[2]), HexValue(g[3]))
      case (Some(a), Some(b), Some(c), Some(d)) =>
        if a < 16 && b < 16 && c < 16 && d < 16 then Some([a * 16 + b, c * 16 + d]) else None
      case _ => None
  }

  function ParseGroups(gs: seq<string>): (r: Option<seq<Byte>>)
    ensures r.Some? ==> |r.value| == 2 * |gs|
    decreases |gs|
  {
    if gs == [] then Some([])
    else
      match (ParseGroup(gs[0]), ParseGroups(gs[1..]))
      case (Some(head), Some(tail)) => Some(head + tail)
      case _ => None
  }

  /** Parses the IPv6 text form into its 16 octets. */
  function ParseIpv6(s: string): (r: Option<seq<Byte>>)
    ensures r.Some? ==> |r.value| == 16
  {
    var gs := Split(s, ':');
    if |gs| != 8 then None else ParseGroups(gs)
  }

  lemma ParseHexGroup(hi: Byte, lo: Byte)
    ensures ParseGroup(HexGroup(hi, lo)) == Some([hi, lo])
  {
    HexValueOfDigit(hi / 16);
    HexValueOfDigit(hi % 16);
    HexValueOfDigit(lo / 16);
    HexValueOfDigit(lo % 16);
  }

  lemma {:induction false} ParseGroupsOfGroups(b: seq<Byte>)
    requires |b| % 2 == 0
    ensures ParseGroups(Groups(b)) == Some(b)
    decreases |b|
  {
    if b != [] {
      ParseHexGroup(b[0], b[1]);
      ParseGroupsOfGroups(b[2..]);
      assert Groups(b)[1..] == Groups(b[2..]);
      assert [b[0], b[1]] + b[2..] == b;
    }
  }

  /** Parsing the IPv6 text of an address gives the address back. */
  lemma Ipv6RoundTrip(b: seq<Byte>)
    requires |b| == 16
    ensures ParseIpv6(Ipv6Text(b)) == Some(b)
  {
    ParseGroupsOfGroups(b);
  }
}
