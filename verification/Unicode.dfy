/** The UTF-8 and UTF-16 encodings of strings of Unicode scalar values. */
module Unicode {

  function CharBytes(c: char): seq<nat> {
    var u := c as nat;
    if u < 0x80 then [u]
    else if u < 0x800 then [0xC0 + u / 0x40, 0x80 + u % 0x40]
    else if u < 0x1_0000 then [0xE0 + u / 0x1000, 0x80 + u / 0x40 % 0x40, 0x80 + u % 0x40]
    else [0xF0 + u / 0x4_0000, 0x80 + u / 0x1000 % 0x40, 0x80 + u / 0x40 % 0x40, 0x80 + u % 0x40]
  }

  function Utf8(s: string): seq<nat> {
    if s == [] then [] else CharBytes(s[0]) + Utf8(s[1..])
  }

  /** Rust's `str::len`. */
  function Utf8Len(s: string): nat {
    |Utf8(s)|
  }

  function CharUnits(c: char): seq<nat> {
    var u := c as nat;
    if u < 0x1_0000 then [u] else [0xD800 + (u - 0x1_0000) / 0x400, 0xDC00 + (u - 0x1_0000) % 0x400]
  }

  function Utf16(s: string): seq<nat> {
    if s == [] then [] else CharUnits(s[0]) + Utf16(s[1..])
  }

  /** The first byte tells how many follow, so no encoded character is a prefix of another. */
  lemma CharBytesPrefixFree(c: char, d: char, x: seq<nat>, y: seq<nat>)
    requires CharBytes(c) + x == CharBytes(d) + y
    ensures c == d && x == y
  {
    var bc, bd := CharBytes(c), CharBytes(d);
    var all := bc + x;
    assert forall i :: 0 <= i < |bc| ==> all[i] == bc[i];
    assert forall i :: 0 <= i < |bd| ==> all[i] == bd[i];
    assert bc[0] == bd[0];
    assert |bc| == |bd|;
    SameBytes(c, d);
    assert x == all[|bc|..] && y == all[|bd|..];
  }

  /** The six-bit digits of a code point. */
  lemma SixBits(u: nat)
    ensures u == u / 0x40 * 0x40 + u % 0x40
    ensures u / 0x40 == u / 0x1000 * 0x40 + u / 0x40 % 0x40
    ensures u / 0x1000 == u / 0x4_0000 * 0x40 + u / 0x1000 % 0x40
  {
  }

  lemma SameBytes(c: char, d: char)
    requires |CharBytes(c)| == |CharBytes(d)|
    requires forall i :: 0 <= i < |CharBytes(c)| ==> CharBytes(c)[i] == CharBytes(d)[i]
    ensures c == d
  {
    var bc, bd := CharBytes(c), CharBytes(d);
    SixBits(c as nat);
    SixBits(d as nat);
    assert bc[0] == bd[0];
    if |bc| == 2 {
      assert bc[1] == bd[1];
    } else if |bc| == 3 {
      assert bc[1] == bd[1] && bc[2] == bd[2];
    } else if |bc| == 4 {
      assert bc[1] == bd[1] && bc[2] == bd[2] && bc[3] == bd[3];
    }
  }

  /** The bytes of a character are those of section 3 of RFC 3629: their ranges, and the code point they spell. */
  lemma BytesSpell(c: char)
    ensures var b, u := CharBytes(c), c as nat;
            match |b|
            case 1 => u < 0x80 && u == b[0]
            case 2 => && 0x80 <= u < 0x800 && 0xC2 <= b[0] <= 0xDF && 0x80 <= b[1] <= 0xBF
                      && u == (b[0] - 0xC0) * 0x40 + (b[1] - 0x80)
            case 3 => && 0x800 <= u < 0x1_0000 && 0xE0 <= b[0] <= 0xEF && 0x80 <= b[1] <= 0xBF && 0x80 <= b[2] <= 0xBF
                      && u == ((b[0] - 0xE0) * 0x40 + (b[1] - 0x80)) * 0x40 + (b[2] - 0x80)
            case 4 => && 0x1_0000 <= u && 0xF0 <= b[0] <= 0xF4 && 0x80 <= b[1] <= 0xBF && 0x80 <= b[2] <= 0xBF && 0x80 <= b[3] <= 0xBF
                      && u == (((b[0] - 0xF0) * 0x40 + (b[1] - 0x80)) * 0x40 + (b[2] - 0x80)) * 0x40 + (b[3] - 0x80)
            case _ => false
  {
    SixBits(c as nat);
  }

  /** The units of a character are those of section 2.1 of RFC 2781. */
  lemma UnitsSpell(c: char)
    ensures var b, u := CharUnits(c), c as nat;
            match |b|
            case 1 => u < 0x1_0000 && u == b[0]
            case 2 => && 0x1_0000 <= u && 0xD800 <= b[0] <= 0xDBFF && 0xDC00 <= b[1] <= 0xDFFF
                      && u == 0x1_0000 + (b[0] - 0xD800) * 0x400 + (b[1] - 0xDC00)
            case _ => false
  {
  }

  lemma {:induction false} Utf8Injective(s: string, t: string)
    requires Utf8(s) == Utf8(t)
    ensures s == t
  {
    hide CharBytes;
    if s != [] && t != [] {
      CharBytesPrefixFree(s[0], t[0], Utf8(s[1..]), Utf8(t[1..]));
      Utf8Injective(s[1..], t[1..]);
      assert s == [s[0]] + s[1..] && t == [t[0]] + t[1..];
    } else {
      NoEmptyCharacter();
    }
  }

  lemma NoEmptyCharacter()
    ensures forall c :: CharBytes(c) != []
  {
  }

  lemma {:induction false} AsciiLength(s: string)
    requires forall i :: 0 <= i < |s| ==> s[i] < '\U{0080}'
    ensures Utf8Len(s) == |s|
  {
    if s != [] { AsciiLength(s[1..]); }
  }

  lemma {:induction false} Utf8Bound(s: string)
    ensures |s| <= Utf8Len(s) <= 4 * |s|
  {
    if s != [] { Utf8Bound(s[1..]); }
  }

  lemma {:induction false} Utf16Injective(s: string, t: string)
    requires Utf16(s) == Utf16(t)
    ensures s == t
  {
    if s != [] && t != [] {
      var us, ut := CharUnits(s[0]), CharUnits(t[0]);
      assert us[0] == Utf16(s)[0] == Utf16(t)[0] == ut[0];
      if |us| == 2 {
        assert us[1] == Utf16(s)[1] == Utf16(t)[1] == ut[1];
      }
      assert s[0] == t[0];
      assert Utf16(s[1..]) == Utf16(s)[|us|..] == Utf16(t)[|ut|..] == Utf16(t[1..]);
      Utf16Injective(s[1..], t[1..]);
      assert s == [s[0]] + s[1..] && t == [t[0]] + t[1..];
    }
  }
}
