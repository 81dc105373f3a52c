/** Base64 with the URL-safe alphabet (section 5 of RFC 4648), and the stripped padding tokens use. */
module Base64Url {
  import opened Prelude

  function Letter(v: int): char
    requires 0 <= v < 64
  {
    if v < 26 then 'A' + v as char
    else if v < 52 then 'a' + (v - 26) as char
    else if v < 62 then '0' + (v - 52) as char
    else if v == 62 then '-'
    else '_'
  }

  /** The value of a letter of the alphabet, -1 for any other character. */
  function ValueOf(c: char): int {
    if 'A' <= c <= 'Z' then (c - 'A') as int
    else if 'a' <= c <= 'z' then (c - 'a') as int + 26
    else if '0' <= c <= '9' then (c - '0') as int + 52
    else if c == '-' then 62
    else if c == '_' then 63
    else -1
  }

  function First(a: Octet): int { a / 4 }
  function Second(a: Octet, b: Octet): int { a % 4 * 16 + b / 16 }
  function Third(b: Octet, c: Octet): int { b % 16 * 4 + c / 64 }
  function Fourth(c: Octet): int { c % 64 }

  /** Three octets as four letters. */
  function Quad(a: Octet, b: Octet, c: Octet): (r: string)
    ensures |r| == 4 && '=' !in r && '.' !in r
  {
    LettersDiffer(First(a));
    LettersDiffer(Second(a, b));
    LettersDiffer(Third(b, c));
    LettersDiffer(Fourth(c));
    [Letter(First(a)), Letter(Second(a, b)), Letter(Third(b, c)), Letter(Fourth(c))]
  }

  /** The letters of an encoding, without the padding. */
  function Core(data: Octets): (r: string)
    ensures '=' !in r && '.' !in r
  {
    if data == [] then []
    else if |data| == 1 then Quad(data[0], 0, 0)[..2]
    else if |data| == 2 then Quad(data[0], data[1], 0)[..3]
    else Quad(data[0], data[1], data[2]) + Core(data[3..])
  }

  /** How many `=` complete the last group. */
  function PadCount(n: nat): nat {
    (3 - n % 3) % 3
  }

  function Pads(n: nat): (r: string)
    ensures |r| == n
  {
    if n == 0 then "" else Pads(n - 1) + "="
  }

  function Encode(data: Octets): string {
    Core(data) + Pads(PadCount(|data|))
  }

  function Join1(v: int, w: int): Octet
    requires 0 <= v < 64 && 0 <= w < 64
  {
    v * 4 + w / 16
  }

  function Join2(w: int, x: int): Octet
    requires 0 <= w < 64 && 0 <= x < 64
  {
    w % 16 * 16 + x / 4
  }

  function Join3(x: int, y: int): Octet
    requires 0 <= x < 64 && 0 <= y < 64
  {
    x % 4 * 64 + y
  }

  function DecodeQuad(s: string): Option<Octets>
    requires |s| == 4
  {
    var (v, w, x, y) := (ValueOf(s[0]), ValueOf(s[1]), ValueOf(s[2]), ValueOf(s[3]));
    if v < 0 || w < 0 || x < 0 || y < 0 then None
    else Some([Join1(v, w), Join2(w, x), Join3(x, y)])
  }

  /** The last group, possibly padded. */
  function DecodeLast(s: string): Option<Octets>
    requires |s| == 4
  {
    var (v, w, x) := (ValueOf(s[0]), ValueOf(s[1]), ValueOf(s[2]));
    if s[3] != '=' then DecodeQuad(s)
    else if v < 0 || w < 0 then None
    else if s[2] == '=' then Some([Join1(v, w)])
    else if x < 0 then None
    else Some([Join1(v, w), Join2(w, x)])
  }

  /** Decodes groups of four letters, the last one possibly padded; None for any other text. */
  function DecodeGroups(s: string): Option<Octets> {
    if s == [] then Some([])
    else if |s| < 4 then None
    else if |s| == 4 then DecodeLast(s)
    else match DecodeQuad(s[..4])
      case None => None
      case Some(group) =>
        match DecodeGroups(s[4..])
        case None => None
        case Some(rest) => Some(group + rest)
  }

  function StripPadding(s: string): string {
    if s != [] && s[|s| - 1] == '=' then StripPadding(s[..|s| - 1]) else s
  }

  /** As many `=` as complete the last group of four. */
  function Repad(s: string): string {
    var n := (4 - |s| % 4) % 4;
    s + (if n == 0 then "" else if n == 1 then "=" else if n == 2 then "==" else "===")
  }

  lemma LettersDiffer(v: int)
    requires 0 <= v < 64
    ensures Letter(v) != '=' && Letter(v) != '.'
  {
  }

  lemma LettersReadBack(v: int)
    requires 0 <= v < 64
    ensures ValueOf(Letter(v)) == v
  {
  }

  lemma GroupReadsBack(a: Octet, b: Octet, c: Octet)
    ensures Join1(First(a), Second(a, b)) == a
    ensures Join2(Second(a, b), Third(b, c)) == b
    ensures Join3(Third(b, c), Fourth(c)) == c
  {
  }

  lemma FullGroupReadsBack(a: Octet, b: Octet, c: Octet)
    ensures DecodeQuad(Quad(a, b, c)) == Some([a, b, c])
    ensures DecodeLast(Quad(a, b, c)) == Some([a, b, c])
  {
    GroupReadsBack(a, b, c);
    LettersReadBack(First(a));
    LettersReadBack(Second(a, b));
    LettersReadBack(Third(b, c));
    LettersReadBack(Fourth(c));
    LettersDiffer(Fourth(c));
  }

  lemma TwoOctetsReadBack(a: Octet, b: Octet, c: Octet)
    ensures DecodeLast(Quad(a, b, c)[..3] + "=") == Some([a, b])
  {
    GroupReadsBack(a, b, c);
    LettersReadBack(First(a));
    LettersReadBack(Second(a, b));
    LettersReadBack(Third(b, c));
    LettersDiffer(Third(b, c));
  }

  lemma OneOctetReadsBack(a: Octet, b: Octet, c: Octet)
    ensures DecodeLast(Quad(a, b, c)[..2] + "==") == Some([a])
  {
    GroupReadsBack(a, b, c);
    LettersReadBack(First(a));
    LettersReadBack(Second(a, b));
  }

  lemma GroupThenRest(group: string, rest: string, octets: Octets, more: Octets)
    requires |group| == 4 && DecodeQuad(group) == Some(octets) && DecodeLast(group) == Some(octets)
    requires DecodeGroups(rest) == Some(more)
    ensures DecodeGroups(group + rest) == Some(octets + more)
  {
    assert (group + rest)[..4] == group && (group + rest)[4..] == rest;
    if rest == [] {
      assert group + rest == group && octets + more == octets;
    }
  }

  lemma DecodeOfOne(a: Octet)
    ensures DecodeGroups(Encode([a])) == Some([a])
  {
    var text := Quad(a, 0, 0)[..2] + "==";
    assert DecodeLast(text) == Some([a]) by { OneOctetReadsBack(a, 0, 0); }
    LastGroupAlone(text);
    assert Encode([a]) == text by { EncodeOne(a); }
  }

  lemma LastGroupAlone(text: string)
    requires |text| == 4
    ensures DecodeGroups(text) == DecodeLast(text)
  {
  }

  lemma EncodeOne(a: Octet)
    ensures Encode([a]) == Quad(a, 0, 0)[..2] + "=="
  {
    var zero: Octet, data := 0, [a];
    CoreOfOne(data, a, zero);
    PadsOfOne(|data|);
    TwoPads();
    EncodeAs(data, Quad(a, zero, zero)[..2], "==");
  }

  lemma CoreOfOne(data: Octets, a: Octet, zero: Octet)
    requires data == [a] && zero == 0
    ensures Core(data) == Quad(a, zero, zero)[..2]
  {
  }

  lemma PadsOfOne(n: nat)
    requires n == 1
    ensures PadCount(n) == 2
  {
  }

  lemma EncodeAs(data: Octets, head: string, pads: string)
    requires PadCount(|data|) == 2 && head == Core(data) && pads == Pads(2)
    ensures Encode(data) == head + pads
  {
  }

  lemma TwoPads()
    ensures Pads(2) == "=="
  {
    assert Pads(1) == "=";
  }

  lemma DecodeOfTwo(a: Octet, b: Octet)
    ensures DecodeGroups(Encode([a, b])) == Some([a, b])
  {
    var text := Quad(a, b, 0)[..3] + "=";
    assert DecodeLast(text) == Some([a, b]) by { TwoOctetsReadBack(a, b, 0); }
    LastGroupAlone(text);
    assert Encode([a, b]) == text by { EncodeTwo(a, b); }
  }

  lemma Reassociate(a: string, b: string, c: string)
    ensures a + (b + c) == (a + b) + c
  {
  }

  lemma EncodeSteps(a: Octet, b: Octet, c: Octet, rest: Octets)
    ensures Encode([a, b, c] + rest) == Quad(a, b, c) + Encode(rest)
  {
    var data := [a, b, c] + rest;
    assert data[3..] == rest;
    assert PadCount(|data|) == PadCount(|rest|);
    Reassociate(Quad(a, b, c), Core(rest), Pads(PadCount(|rest|)));
  }

  /** Decoding undoes encoding on every octet string, and encodings come in groups of four. */
  lemma {:induction false} DecodeOfEncode(data: Octets)
    ensures DecodeGroups(Encode(data)) == Some(data)
    ensures |Encode(data)| % 4 == 0
    decreases |data|
  {
    if data == [] {
      assert Encode(data) == "";
    } else if |data| == 1 {
      DecodeOfOne(data[0]);
      assert data == [data[0]];
    } else if |data| == 2 {
      DecodeOfTwo(data[0], data[1]);
      assert data == [data[0], data[1]];
    } else {
      var a, b, c, rest := data[0], data[1], data[2], data[3..];
      assert data == [a, b, c] + rest;
      FullGroupReadsBack(a, b, c);
      DecodeOfEncode(rest);
      EncodeSteps(a, b, c, rest);
      GroupThenRest(Quad(a, b, c), Encode(rest), [a, b, c], rest);
      FourMore(|Encode(rest)|);
    }
  }

  lemma FourMore(n: nat)
    requires n % 4 == 0
    ensures (4 + n) % 4 == 0
  {
  }

  lemma {:induction false} StripRemovesPads(core: string, n: nat)
    requires '=' !in core
    ensures StripPadding(core + Pads(n)) == core
  {
    if n == 0 {
      assert core + Pads(0) == core;
    } else {
      assert (core + Pads(n))[..|core + Pads(n)| - 1] == core + Pads(n - 1);
      StripRemovesPads(core, n - 1);
    }
  }

  lemma RepadAdds(core: string, n: nat)
    requires n < 3 && (|core| + n) % 4 == 0
    ensures Repad(core) == core + Pads(n)
  {
    assert (4 - |core| % 4) % 4 == n;
    assert Pads(0) == "" && Pads(1) == "=" && Pads(2) == "==";
  }

  /** Stripping the padding and putting it back changes nothing, and the stripped text has no dot. */
  lemma RepadRestores(data: Octets)
    ensures Repad(StripPadding(Encode(data))) == Encode(data)
    ensures '.' !in StripPadding(Encode(data))
  {
    DecodeOfEncode(data);
    StripRemovesPads(Core(data), PadCount(|data|));
    RepadAdds(Core(data), PadCount(|data|));
  }

  lemma EncodeThree(a: Octet, b: Octet, c: Octet)
    ensures Encode([a, b, c]) == Quad(a, b, c)
  {
    EncodeSteps(a, b, c, []);
    assert [a, b, c] + [] == [a, b, c];
    assert Encode([]) == "";
  }

  lemma EncodeTwo(a: Octet, b: Octet)
    ensures Encode([a, b]) == Quad(a, b, 0)[..3] + "="
  {
    var zero: Octet, data := 0, [a, b];
    CoreOfTwo(data, a, b, zero);
    PadsOfTwo(|data|);
    assert Pads(1) == "=";
  }

  lemma CoreOfTwo(data: Octets, a: Octet, b: Octet, zero: Octet)
    requires data == [a, b] && zero == 0
    ensures Core(data) == Quad(a, b, zero)[..3]
  {
  }

  lemma PadsOfTwo(n: nat)
    requires n == 2
    ensures PadCount(n) == 1
  {
  }

  /** Examples of section 10 of RFC 4648: `f`, `fo` and `foo`. */
  lemma EncodedF()
    ensures Encode([102]) == "Zg=="
  {
    EncodeOne(102);
    assert Quad(102, 0, 0)[..2] == "Zg";
  }

  lemma EncodedFo()
    ensures Encode([102, 111]) == "Zm8="
  {
    EncodeTwo(102, 111);
    assert Quad(102, 111, 0)[..3] == "Zm8";
  }

  lemma EncodedFoo()
    ensures Encode([102, 111, 111]) == "Zm9v"
  {
    EncodeThree(102, 111, 111);
  }

  /** The two letters in which the URL-safe alphabet differs. */
  lemma UrlSafeLetters()
    ensures Encode([251, 255, 191]) == "-_-_"
  {
    EncodeThree(251, 255, 191);
  }
}
