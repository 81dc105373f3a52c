/** UTF-8 (RFC 3629): printing texts as octets and reading them back strictly. */
module Utf8 {
  import opened Prelude

  predicate IsScalar(v: int) {
    0 <= v < 0xD800 || 0xE000 <= v < 0x11_0000
  }

  function EncodeChar(c: char): (r: Octets)
    ensures 1 <= |r| <= 4
  {
    var v := c as int;
    if v < 0x80 then [v]
    else if v < 0x800 then [0xC0 + v / 0x40, 0x80 + v % 0x40]
    else if v < 0x1_0000 then [0xE0 + v / 0x1000, 0x80 + v / 0x40 % 0x40, 0x80 + v % 0x40]
    else [0xF0 + v / 0x4_0000, 0x80 + v / 0x1000 % 0x40, 0x80 + v / 0x40 % 0x40, 0x80 + v % 0x40]
  }

  function Encode(s: string): Octets {
    if s == "" then [] else EncodeChar(s[0]) + Encode(s[1..])
  }

  /** How many octets a character takes that begins with `first`; 0 when none does. */
  function SizeOf(first: Octet): nat {
    if first < 0x80 then 1
    else if first < 0xC2 then 0
    else if first < 0xE0 then 2
    else if first < 0xF0 then 3
    else if first < 0xF5 then 4
    else 0
  }

  /** What octet `i` adds to its marker. */
  function At(b: Octets, i: nat, marker: int): int
    requires i < |b|
  {
    b[i] - marker
  }

  /** The number that the first character of `b` spells, well formed or not. */
  function Spelled(b: Octets): int
    requires b != [] && SizeOf(b[0]) <= |b|
  {
    match SizeOf(b[0])
    case 2 => At(b, 0, 0xC0) * 0x40 + At(b, 1, 0x80)
    case 3 => At(b, 0, 0xE0) * 0x1000 + At(b, 1, 0x80) * 0x40 + At(b, 2, 0x80)
    case 4 => At(b, 0, 0xF0) * 0x4_0000 + At(b, 1, 0x80) * 0x1000 + At(b, 2, 0x80) * 0x40 + At(b, 3, 0x80)
    case _ => b[0]
  }

  /** The first character; None when the octets are cut off, overlong or otherwise malformed. */
  function FirstChar(b: Octets): (r: Option<char>)
    requires b != []
    ensures r.Some? ==> EncodeChar(r.value) <= b
  {
    var n := SizeOf(b[0]);
    if n == 0 || |b| < n || !IsScalar(Spelled(b)) then None
    else if EncodeChar(Spelled(b) as char) == b[..n] then Some(Spelled(b) as char)
    else None
  }

  /** Strict decoding: None where Python raises. */
  function Decode(b: Octets): Option<string> {
    if b == [] then Some("")
    else match FirstChar(b)
      case None => None
      case Some(c) =>
        match Decode(b[|EncodeChar(c)|..])
        case None => None
        case Some(rest) => Some([c] + rest)
  }

  lemma SpelledByTwo(c: char, rest: Octets)
    requires 0x80 <= c as int < 0x800
    ensures var b := EncodeChar(c) + rest; SizeOf(b[0]) == 2 && Spelled(b) == c as int
  {
  }

  lemma SpelledByThree(c: char, rest: Octets)
    requires 0x800 <= c as int < 0x1_0000
    ensures var b := EncodeChar(c) + rest; SizeOf(b[0]) == 3 && Spelled(b) == c as int
  {
    var v := c as int;
    assert v == v / 0x1000 * 0x1000 + v / 0x40 % 0x40 * 0x40 + v % 0x40;
  }

  lemma SpelledByFour(c: char, rest: Octets)
    requires 0x1_0000 <= c as int
    ensures var b := EncodeChar(c) + rest; SizeOf(b[0]) == 4 && Spelled(b) == c as int
  {
    var v := c as int;
    assert v == v / 0x4_0000 * 0x4_0000 + v / 0x1000 % 0x40 * 0x1000 + v / 0x40 % 0x40 * 0x40 + v % 0x40;
  }

  lemma FirstCharOfEncoding(c: char, rest: Octets)
    ensures FirstChar(EncodeChar(c) + rest) == Some(c)
  {
    var v, b := c as int, EncodeChar(c) + rest;
    if v >= 0x1_0000 {
      SpelledByFour(c, rest);
    } else if v >= 0x800 {
      SpelledByThree(c, rest);
    } else if v >= 0x80 {
      SpelledByTwo(c, rest);
    }
    assert b[..|EncodeChar(c)|] == EncodeChar(c);
  }

  /** Strict decoding undoes encoding on every text. */
  lemma {:induction false} DecodeOfEncode(s: string)
    ensures Decode(Encode(s)) == Some(s)
  {
    if s != "" {
      var first, rest := EncodeChar(s[0]), Encode(s[1..]);
      FirstCharOfEncoding(s[0], rest);
      assert Encode(s) == first + rest && (first + rest)[|first|..] == rest;
      DecodeOfEncode(s[1..]);
      assert [s[0]] + s[1..] == s;
    }
  }

  lemma EncodeMore(c: char, text: string)
    ensures Encode([c] + text) == EncodeChar(c) + Encode(text)
  {
    assert ([c] + text)[1..] == text;
  }

  lemma DecodeStep(b: Octets) returns (c: char, rest: Octets)
    requires b != [] && Decode(b).Some?
    ensures b == EncodeChar(c) + rest && |rest| < |b|
    ensures Decode(rest).Some? && Decode(b).value == [c] + Decode(rest).value
  {
    c := FirstChar(b).value;
    rest := b[|EncodeChar(c)|..];
  }

  /** There is only one way to spell a text. */
  lemma {:induction false} EncodeOfDecode(b: Octets)
    requires Decode(b).Some?
    ensures Encode(Decode(b).value) == b
    decreases |b|
  {
    if b != [] {
      var c, rest := DecodeStep(b);
      EncodeMore(c, Decode(rest).value);
      EncodeOfDecode(rest);
    }
  }

  lemma SameFirstChar(c: char, x: Octets, d: char, y: Octets)
    requires EncodeChar(c) + x <= EncodeChar(d) + y
    ensures c == d && x <= y
  {
    var more := (EncodeChar(d) + y)[|EncodeChar(c)|..];
    assert EncodeChar(c) + more == EncodeChar(d) + y;
    FirstCharOfEncoding(c, more);
    FirstCharOfEncoding(d, y);
    assert (EncodeChar(c) + x)[|EncodeChar(c)|..] == x && (EncodeChar(d) + y)[|EncodeChar(d)|..] == y;
  }

  /** A text spelled at the beginning of another one is its beginning. */
  lemma {:induction false} PrefixOfEncoding(s: string, t: string)
    requires Encode(s) <= Encode(t)
    ensures s <= t
  {
    if s != "" {
      SameFirstChar(s[0], Encode(s[1..]), t[0], Encode(t[1..]));
      PrefixOfEncoding(s[1..], t[1..]);
    }
  }

  /** The first `m` octets of a text are valid exactly when they end with a character. */
  lemma CutIsValidIff(s: string, m: nat)
    requires m <= |Encode(s)|
    ensures Decode(Encode(s)[..m]).Some? <==> exists n :: 0 <= n <= |s| && Encode(s)[..m] == Encode(s[..n])
  {
    var cut := Encode(s)[..m];
    if Decode(cut).Some? {
      var t := Decode(cut).value;
      EncodeOfDecode(cut);
      PrefixOfEncoding(t, s);
      assert t == s[..|t|];
    }
    if n :| 0 <= n <= |s| && cut == Encode(s[..n]) {
      DecodeOfEncode(s[..n]);
    }
  }

  /** NUL is the octet 0 and nothing else contains that octet. */
  lemma {:induction false} EncodedNul(s: string)
    ensures '\0' in s <==> 0 in Encode(s)
  {
    if s != "" {
      EncodedNul(s[1..]);
      assert 0 in EncodeChar(s[0]) <==> s[0] == '\0';
    }
  }

  lemma {:induction false} EncodeOfConcat(s: string, t: string)
    ensures Encode(s + t) == Encode(s) + Encode(t)
  {
    if s == "" {
      assert s + t == t;
    } else {
      assert (s + t)[1..] == s[1..] + t;
      EncodeOfConcat(s[1..], t);
    }
  }

  lemma {:induction false} EncodeOfAscii(s: string)
    requires forall i :: 0 <= i < |s| ==> s[i] as int < 0x80
    ensures |Encode(s)| == |s|
  {
    if s != "" {
      EncodeOfAscii(s[1..]);
    }
  }

  /** In plain ASCII text octet `i` is character `i`. */
  lemma {:induction false} AsciiText(s: string, i: nat)
    requires i < |s| && forall k :: 0 <= k < |s| ==> s[k] as int < 0x80
    ensures |Encode(s)| == |s| && Encode(s)[i] == s[i] as int
    decreases |s|
  {
    EncodeOfAscii(s);
    if i > 0 {
      AsciiText(s[1..], i - 1);
    }
  }

  /** One character of each size. */
  lemma EncodedExamples()
    ensures Encode("A") == [0x41] && Encode("\U{E9}") == [0xC3, 0xA9]
    ensures Encode("\U{20AC}") == [0xE2, 0x82, 0xAC] && Encode("\U{10348}") == [0xF0, 0x90, 0x8D, 0x88]
  {
  }
}
