/**
 * UUIDs as the invite path reads them: `uuid.UUID(str(value))` drops
 * `urn:`/`uuid:` prefixes, surrounding braces and every hyphen, demands 32
 * characters, and reads them with `int(..., 16)`. Users and comments carry
 * such a value; `str(uuid)` writes it back in the 8-4-4-4-12 form.
 */
module Uuids {
  import opened Wrappers
  import opened Text

  type Hex = d: nat | d < 16

  /** The 128-bit value as its 32 hexadecimal digits, most significant first. */
  type Uuid = s: seq<Hex> | |s| == 32 witness seq(32, _ => 0)

  predicate IsHexChar(c: char) {
    '0' <= c <= '9' || 'a' <= c <= 'f' || 'A' <= c <= 'F'
  }

  function HexChar(d: Hex): (c: char)
    ensures IsHexChar(c)
  {
    if d < 10 then ('0' as int + d) as char else ('a' as int + d - 10) as char
  }

  function HexValue(c: char): Hex
    requires IsHexChar(c)
  {
    if c <= '9' then c as int - '0' as int
    else if c <= 'F' then c as int - 'A' as int + 10
    else c as int - 'a' as int + 10
  }

  function HexString(ds: seq<Hex>): (s: string)
    ensures |s| == |ds|
    ensures forall i :: 0 <= i < |s| ==> s[i] == HexChar(ds[i])
  {
    seq(|ds|, i requires 0 <= i < |ds| => HexChar(ds[i]))
  }

  /** `str(u)`: lower-case hexadecimal in groups of 8, 4, 4, 4 and 12 digits. */
  function Format(u: Uuid): (s: string)
    ensures |s| == 36
  {
    HexString(u[..8]) + "-" + HexString(u[8..12]) + "-" + HexString(u[12..16]) + "-"
      + HexString(u[16..20]) + "-" + HexString(u[20..])
  }

  /**
   * The digits of Python's hexadecimal integer syntax: at least one digit,
   * in either case, with single underscores allowed between two digits.
   * None where the text breaks that syntax.
   */
  function HexDigits(s: string): (r: Option<seq<Hex>>)
    ensures r.Some? ==> 0 < |r.value| <= |s|
    decreases |s|
  {
    if s == [] || !IsHexChar(s[0]) then None
    else if |s| == 1 then Some([HexValue(s[0])])
    else
      var rest := if s[1] == '_' then s[2..] else s[1..];
      match HexDigits(rest)
      case None => None
      case Some(ds) => Some([HexValue(s[0])] + ds)
  }

  /**
   * `int(text, 16)` on ASCII text: the digits it reads, or None where Python
   * raises ValueError. Surrounding whitespace, a `+` sign and a `0x` or `0X`
   * prefix (which one underscore may follow) are allowed around the digits.
   */
  function ParseHexInt(text: string): (r: Option<seq<Hex>>)
    ensures r.Some? ==> 0 < |r.value| <= |text|
  {
    var body := Strip(text, Whitespace);
    var unsigned := if body != [] && body[0] == '+' then body[1..] else body;
    if |unsigned| >= 2 && unsigned[0] == '0' && (unsigned[1] == 'x' || unsigned[1] == 'X') then
      var rest := unsigned[2..];
      HexDigits(if rest != [] && rest[0] == '_' then rest[1..] else rest)
    else
      HexDigits(unsigned)
  }

  /** The 32-digit value of at most 32 digits: leading zeros are added. */
  function Pad(ds: seq<Hex>): (u: Uuid)
    requires |ds| <= 32
    ensures u[32 - |ds|..] == ds
  {
    var zeros: seq<Hex> := seq(32 - |ds|, _ => 0);
    zeros + ds
  }

  /**
   * `uuid.UUID(text)`: None where Python raises ValueError. After the
   * prefixes, braces and hyphens are gone, exactly 32 characters must be
   * left, and `int(..., 16)` must read them; the result is the value read.
   */
  function Parse(text: string): Option<Uuid> {
    var unprefixed := Without(Without(text, "urn:"), "uuid:");
    var hex := Without(Strip(unprefixed, {'{', '}'}), "-");
    if |hex| != 32 then None
    else
      match ParseHexInt(hex)
      case None => None
      case Some(ds) => Some(Pad(ds))
  }

  lemma HexRoundTrip(d: Hex)
    ensures HexValue(HexChar(d)) == d
  {
  }

  lemma {:induction false} HexStringHasNoHyphen(ds: seq<Hex>)
    ensures Without(HexString(ds), "-") == HexString(ds)
  {
    var s := HexString(ds);
    forall i | 0 <= i < |s| ensures s[i] != '-' {
      assert IsHexChar(s[i]);
    }
    WithoutAbsent(s, "-");
  }

  lemma HexStringAppend(x: seq<Hex>, y: seq<Hex>)
    ensures HexString(x + y) == HexString(x) + HexString(y)
  {
  }

  /** Every character of a formatted UUID is a hexadecimal digit or a hyphen. */
  lemma FormatAlphabet(u: Uuid)
    ensures forall i :: 0 <= i < 36 ==> IsHexChar(Format(u)[i]) || Format(u)[i] == '-'
    ensures IsHexChar(Format(u)[0]) && IsHexChar(Format(u)[35])
  {
  }

  /** Dropping hyphens from `x-y` is dropping them from `x` and from `y`. */
  lemma HyphenJoin(x: string, y: string)
    ensures Without(x + "-" + y, "-") == Without(x, "-") + Without(y, "-")
  {
    WithoutCharAppend(x + "-", y, '-');
    WithoutCharAppend(x, "-", '-');
    assert Without("-", "-") == [];
  }

  /** Five hyphen-free parts joined by hyphens lose exactly the joining hyphens. */
  lemma {:induction false} JoinFive(a: string, b: string, c: string, d: string, e: string)
    requires Without(a, "-") == a && Without(b, "-") == b && Without(c, "-") == c
    requires Without(d, "-") == d && Without(e, "-") == e
    ensures Without(a + "-" + b + "-" + c + "-" + d + "-" + e, "-") == a + b + c + d + e
  {
    var s1 := a + "-" + b;
    HyphenJoin(a, b);
    var s2 := s1 + "-" + c;
    HyphenJoin(s1, c);
    var s3 := s2 + "-" + d;
    HyphenJoin(s2, d);
    HyphenJoin(s3, e);
  }

  /** The digits of a UUID are the digits of its five groups, in order. */
  lemma {:induction false} HexStringGroups(u: Uuid)
    ensures HexString(u) == HexString(u[..8]) + HexString(u[8..12]) + HexString(u[12..16])
                            + HexString(u[16..20]) + HexString(u[20..])
  {
    var p1, p2, p3, p4, p5 := u[..8], u[8..12], u[12..16], u[16..20], u[20..];
    HexStringAppend(p1, p2);
    HexStringAppend(p1 + p2, p3);
    HexStringAppend(p1 + p2 + p3, p4);
    HexStringAppend(p1 + p2 + p3 + p4, p5);
    assert u == p1 + p2 + p3 + p4 + p5;
  }

  /** Dropping the hyphens of a formatted UUID leaves its 32 digits. */
  lemma {:induction false} FormatWithoutHyphens(u: Uuid)
    ensures Without(Format(u), "-") == HexString(u)
  {
    HexStringHasNoHyphen(u[..8]);
    HexStringHasNoHyphen(u[8..12]);
    HexStringHasNoHyphen(u[12..16]);
    HexStringHasNoHyphen(u[16..20]);
    HexStringHasNoHyphen(u[20..]);
    JoinFive(HexString(u[..8]), HexString(u[8..12]), HexString(u[12..16]),
             HexString(u[16..20]), HexString(u[20..]));
    HexStringGroups(u);
  }

  /** Neither prefix removal nor brace stripping touches a formatted UUID. */
  lemma {:induction false} FormatUnwrapped(u: Uuid)
    ensures Strip(Without(Without(Format(u), "urn:"), "uuid:"), {'{', '}'}) == Format(u)
  {
    var s := Format(u);
    FormatAlphabet(u);
    assert 'u' !in s;
    WithoutAbsent(s, "urn:");
    WithoutAbsent(s, "uuid:");
    assert s[0] !in {'{', '}'} && s[|s| - 1] !in {'{', '}'};
  }

  /** A run of digits without underscores reads back as those digits. */
  lemma {:induction false} HexDigitsOfHexString(ds: seq<Hex>)
    requires ds != []
    ensures HexDigits(HexString(ds)) == Some(ds)
    decreases |ds|
  {
    var s := HexString(ds);
    HexRoundTrip(ds[0]);
    if |ds| == 1 {
      assert ds == [ds[0]];
    } else {
      assert s[1..] == HexString(ds[1..]);
      assert s[1] != '_';
      HexDigitsOfHexString(ds[1..]);
      assert ds == [ds[0]] + ds[1..];
    }
  }

  /** `int(digits, 16)` reads plain digits as themselves. */
  lemma {:induction false} ParseHexIntOfHexString(ds: seq<Hex>)
    requires 2 <= |ds|
    ensures ParseHexInt(HexString(ds)) == Some(ds)
  {
    var s := HexString(ds);
    assert s[0] !in Whitespace && s[|s| - 1] !in Whitespace;
    assert Strip(s, Whitespace) == s;
    assert s[0] != '+' && s[1] != 'x' && s[1] != 'X';
    HexDigitsOfHexString(ds);
  }

  /** Reading a formatted UUID gives the same UUID back. */
  lemma {:induction false} ParseFormat(u: Uuid)
    ensures Parse(Format(u)) == Some(u)
  {
    FormatUnwrapped(u);
    FormatWithoutHyphens(u);
    ParseHexIntOfHexString(u);
    assert Pad(u) == u;
  }

  /**
   * `uuid.UUID` also takes texts that are not canonical, as `int(..., 16)`
   * does: `0x` followed by 30 digits reads as those digits with two leading
   * zeros.
   */
  lemma {:induction false} ParseAcceptsHexPrefix(ds: seq<Hex>)
    requires |ds| == 30
    ensures Parse("0x" + HexString(ds)) == Some(Pad(ds))
    ensures Pad(ds)[..2] == [0, 0]
  {
    PrefixedUnwrapped(ds);
    PrefixedHexInt(ds);
  }

  /** Neither prefix removal, brace stripping nor hyphen removal touches `0x` and digits. */
  lemma {:induction false} PrefixedUnwrapped(ds: seq<Hex>)
    requires ds != []
    ensures var s := "0x" + HexString(ds);
      Without(Strip(Without(Without(s, "urn:"), "uuid:"), {'{', '}'}), "-") == s
  {
    var s := "0x" + HexString(ds);
    PrefixedAlphabet(ds);
    WithoutAbsent(s, "urn:");
    WithoutAbsent(s, "uuid:");
    assert Strip(s, {'{', '}'}) == s;
    WithoutAbsent(s, "-");
  }

  /** `0x` and digits hold neither `u` nor a hyphen, and end in a digit. */
  lemma PrefixedAlphabet(ds: seq<Hex>)
    requires ds != []
    ensures var s := "0x" + HexString(ds);
      'u' !in s && '-' !in s && IsHexChar(s[|s| - 1])
  {
    var s := "0x" + HexString(ds);
    forall i | 0 <= i < |s| ensures s[i] != 'u' && s[i] != '-' {
      if i >= 2 { assert s[i] == HexString(ds)[i - 2]; }
    }
    assert s[|s| - 1] == HexString(ds)[|ds| - 1];
  }

  /** `int("0x" + digits, 16)` reads the digits. */
  lemma {:induction false} PrefixedHexInt(ds: seq<Hex>)
    requires ds != []
    ensures ParseHexInt("0x" + HexString(ds)) == Some(ds)
  {
    var s := "0x" + HexString(ds);
    assert s[|s| - 1] == HexString(ds)[|ds| - 1];
    assert s[0] !in Whitespace && s[|s| - 1] !in Whitespace;
    assert Strip(s, Whitespace) == s;
    assert s[2..] == HexString(ds);
    HexDigitsOfHexString(ds);
  }
}
