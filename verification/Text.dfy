/**
 * Cutting and splitting text, UTF-8 (RFC 3629), and percent-encoding (section 2.1 of RFC 3986).
 */
module Text {
  import opened Optional
  import opened Sorting

  // ---------------------------------------------------------------- cutting

  function IndexOf(s: string, c: char): (i: nat)
    ensures i <= |s|
    ensures c !in s[..i]
    ensures i < |s| ==> s[i] == c
  {
    if s == "" || s[0] == c then 0 else 1 + IndexOf(s[1..], c)
  }

  function Before(s: string, c: char): string { s[..IndexOf(s, c)] }

  function After(s: string, c: char): string {
    if IndexOf(s, c) < |s| then s[IndexOf(s, c) + 1..] else ""
  }

  lemma {:induction false} CutAt(a: string, c: char, b: string)
    requires c !in a
    ensures Before(a + [c] + b, c) == a && After(a + [c] + b, c) == b
  {
    var s := a + [c] + b;
    if a != "" {
      assert s[1..] == a[1..] + [c] + b;
      CutAt(a[1..], c, b);
      assert IndexOf(s, c) == 1 + IndexOf(s[1..], c);
    }
  }

  lemma NothingToCut(s: string, c: char)
    requires c !in s
    ensures Before(s, c) == s && After(s, c) == ""
  {
  }

  lemma {:induction false} IndexAfter(a: string, b: string, c: char)
    requires c !in a
    ensures IndexOf(a + b, c) == |a| + IndexOf(b, c)
    ensures Before(a + b, c) == a + Before(b, c)
    ensures After(a + b, c) == After(b, c)
  {
    if a == "" {
      assert a + b == b;
    } else {
      assert (a + b)[1..] == a[1..] + b;
      IndexAfter(a[1..], b, c);
    }
  }

  lemma CutsShrink(s: string, c: char)
    ensures |Before(s, c)| <= |s|
    ensures |After(s, c)| <= |s| && (s != "" ==> |After(s, c)| < |s|)
  {
  }

  predicate OccursAt(text: string, part: string, i: nat) {
    i + |part| <= |text| && text[i..i + |part|] == part
  }

  predicate Contains(text: string, part: string) {
    exists i :: 0 <= i <= |text| && OccursAt(text, part, i)
  }

  // ---------------------------------------------------------------- splitting

  function Split(s: string, c: char): (parts: seq<string>)
    ensures |parts| >= 1
  {
    if s == "" then [""]
    else if s[0] == c then [""] + Split(s[1..], c)
    else
      var rest := Split(s[1..], c);
      [[s[0]] + rest[0]] + rest[1..]
  }

  function Join(parts: seq<string>, c: char): string {
    if parts == [] then "" else if |parts| == 1 then parts[0] else parts[0] + [c] + Join(parts[1..], c)
  }

  lemma {:induction false} SplitWhole(s: string, c: char)
    requires c !in s
    ensures Split(s, c) == [s]
  {
    if s != "" {
      SplitWhole(s[1..], c);
      assert [s[0]] + s[1..] == s;
    }
  }

  lemma {:induction false} SplitFirst(a: string, b: string, c: char)
    requires c !in a
    ensures Split(a + [c] + b, c) == [a] + Split(b, c)
  {
    var s := a + [c] + b;
    if a == "" {
      assert s[1..] == b;
    } else {
      assert s[1..] == a[1..] + [c] + b;
      SplitFirst(a[1..], b, c);
      assert [a[0]] + a[1..] == a;
    }
  }

  lemma {:induction false} PiecesAreShort(s: string, c: char)
    ensures forall i :: 0 <= i < |Split(s, c)| ==> |Split(s, c)[i]| <= |s|
  {
    if s != "" {
      PiecesAreShort(s[1..], c);
    }
  }

  lemma {:induction false} SplitHead(s: string, c: char)
    ensures Split(s, c)[0] == Before(s, c)
    ensures Before(s, c) == s || Before(s, c) + [c] <= s
  {
    if s != "" && s[0] != c {
      SplitHead(s[1..], c);
      assert [s[0]] + Before(s[1..], c) == Before(s, c);
    }
  }

  lemma {:induction false} SplitPieces(s: string, c: char)
    ensures forall i :: 0 <= i < |Split(s, c)| ==> c !in Split(s, c)[i]
  {
    if s != "" {
      SplitPieces(s[1..], c);
    }
  }

  lemma {:induction false} JoinUndoesSplit(s: string, c: char)
    ensures Join(Split(s, c), c) == s
  {
    if s != "" {
      var rest := Split(s[1..], c);
      JoinUndoesSplit(s[1..], c);
      if s[0] != c {
        var parts := Split(s, c);
        if |rest| > 1 {
          assert parts[1..] == rest[1..];
          assert parts[0] + [c] + Join(rest[1..], c) == [s[0]] + (rest[0] + [c] + Join(rest[1..], c));
        }
        assert [s[0]] + s[1..] == s;
      } else {
        assert Split(s, c)[1..] == rest;
        assert "" + [c] + s[1..] == s;
      }
    }
  }

  lemma {:induction false} SplitUndoesJoin(parts: seq<string>, c: char)
    requires parts != [] && forall i :: 0 <= i < |parts| ==> c !in parts[i]
    ensures Split(Join(parts, c), c) == parts
  {
    if |parts| == 1 {
      SplitWhole(parts[0], c);
    } else {
      SplitUndoesJoin(parts[1..], c);
      SplitFirst(parts[0], Join(parts[1..], c), c);
    }
  }

  // ---------------------------------------------------------------- dropping empty pieces

  const NonEmpty: string -> bool := (s: string) => s != ""

  predicate NoEmptyPart(s: string, c: char) {
    forall i :: 0 <= i < |Split(s, c)| ==> Split(s, c)[i] != ""
  }

  /** Dropping the empty pieces of a text gives it back exactly when it has none. */
  lemma DropsNothingExactly(s: string, c: char)
    requires s != ""
    ensures Join(Filter(Split(s, c), NonEmpty), c) == s <==> NoEmptyPart(s, c)
  {
    var parts := Split(s, c);
    var kept := Filter(parts, NonEmpty);
    SplitPieces(s, c);
    JoinUndoesSplit(s, c);
    if NoEmptyPart(s, c) {
      FilterAll(parts, NonEmpty);
    }
    if Join(kept, c) == s {
      forall i | 0 <= i < |kept| ensures c !in kept[i] && kept[i] != "" {
        assert kept[i] in kept;
      }
      SplitUndoesJoin(kept, c);
    }
  }

  lemma {:induction false} JoinShrinks(parts: seq<string>, c: char)
    ensures |Join(Filter(parts, NonEmpty), c)| <= |Join(parts, c)|
  {
    if parts != [] {
      var rest, kept := Filter(parts[1..], NonEmpty), Filter(parts, NonEmpty);
      JoinShrinks(parts[1..], c);
      if parts[0] == "" {
        assert kept == rest;
      } else {
        assert kept == [parts[0]] + rest && kept[1..] == rest;
        assert |parts| == 1 ==> parts[1..] == [];
      }
    }
  }

  /** A text that does not start with the separator keeps something. */
  lemma KeepsTheFirst(s: string, c: char)
    requires s != "" && s[0] != c
    ensures Join(Filter(Split(s, c), NonEmpty), c) != ""
  {
    var kept := Filter(Split(s, c), NonEmpty);
    assert Split(s, c)[0] in kept;
    assert kept[0] in kept;
  }

  // ---------------------------------------------------------------- UTF-8

  type Octet = n: int | 0 <= n < 256

  /** The octets of a character. */
  function Octets(c: char): seq<Octet> {
    var n := c as int;
    if n < 0x80 then [n]
    else if n < 0x800 then [0xC0 + n / 64, 0x80 + n % 64]
    else if n < 0x1_0000 then [0xE0 + n / 64 / 64, 0x80 + n / 64 % 64, 0x80 + n % 64]
    else [0xF0 + n / 64 / 64 / 64, 0x80 + n / 64 / 64 % 64, 0x80 + n / 64 % 64, 0x80 + n % 64]
  }

  /** How many octets a sequence has, by its first one; 0 if no sequence starts so. */
  function SequenceLength(lead: Octet): nat {
    if lead < 0x80 then 1
    else if 0xC2 <= lead < 0xE0 then 2
    else if 0xE0 <= lead < 0xF0 then 3
    else if 0xF0 <= lead < 0xF5 then 4
    else 0
  }

  /** Whether an octet may come second: neither an overlong form, nor a surrogate, nor past the last character. */
  predicate MaySecond(lead: Octet, octet: Octet) {
    (if lead == 0xE0 then 0xA0 else if lead == 0xF0 then 0x90 else 0x80) <= octet
    < (if lead == 0xED then 0xA0 else if lead == 0xF4 then 0x90 else 0xC0)
  }

  predicate MayFollow(octet: Octet) { 0x80 <= octet < 0xC0 }

  /** How many octets belong to the sequence that the first one starts. */
  function Matched(bs: seq<Octet>): (n: nat)
    requires bs != []
    ensures 1 <= n <= |bs|
  {
    var length := SequenceLength(bs[0]);
    if length < 2 || |bs| < 2 || !MaySecond(bs[0], bs[1]) then 1
    else if length < 3 || |bs| < 3 || !MayFollow(bs[2]) then 2
    else if length < 4 || |bs| < 4 || !MayFollow(bs[3]) then 3
    else 4
  }

  /** The octets start with a whole, valid sequence. */
  predicate Complete(bs: seq<Octet>) { bs != [] && SequenceLength(bs[0]) == Matched(bs) }

  /** The number of that sequence's character. */
  function CodePoint(bs: seq<Octet>): int
    requires Complete(bs)
  {
    match SequenceLength(bs[0])
    case 1 => bs[0]
    case 2 => (bs[0] as int - 0xC0) * 64 + (bs[1] - 0x80)
    case 3 => ((bs[0] as int - 0xE0) * 64 + (bs[1] - 0x80)) * 64 + (bs[2] - 0x80)
    case _ => (((bs[0] as int - 0xF0) * 64 + (bs[1] - 0x80)) * 64 + (bs[2] - 0x80)) * 64 + (bs[3] - 0x80)
  }

  function CharOf(bs: seq<Octet>): char
    requires Complete(bs)
  {
    CodePoint(bs) as char
  }

  lemma TwoOctets(n: int, more: seq<Octet>)
    requires 0x80 <= n < 0x800
    ensures var bs := [0xC0 + n / 64, 0x80 + n % 64] + more;
      Complete(bs) && SequenceLength(bs[0]) == 2 && CodePoint(bs) == n
  {
    var bs := [0xC0 + n / 64, 0x80 + n % 64] + more;
    assert bs[0] == 0xC0 + n / 64 && bs[1] == 0x80 + n % 64;
  }

  lemma ThreeOctets(n: int, more: seq<Octet>)
    requires 0x800 <= n < 0xD800 || 0xE000 <= n < 0x1_0000
    ensures var bs := [0xE0 + n / 64 / 64, 0x80 + n / 64 % 64, 0x80 + n % 64] + more;
      Complete(bs) && SequenceLength(bs[0]) == 3 && CodePoint(bs) == n
  {
    var a, b, c := n / 64 / 64, n / 64 % 64, n % 64;
    assert n == (a * 64 + b) * 64 + c;
    var bs := [0xE0 + a, 0x80 + b, 0x80 + c] + more;
    assert bs[0] == 0xE0 + a && bs[1] == 0x80 + b && bs[2] == 0x80 + c;
  }

  lemma FourOctets(n: int, more: seq<Octet>)
    requires 0x1_0000 <= n < 0x11_0000
    ensures var bs := [0xF0 + n / 64 / 64 / 64, 0x80 + n / 64 / 64 % 64, 0x80 + n / 64 % 64, 0x80 + n % 64] + more;
      Complete(bs) && SequenceLength(bs[0]) == 4 && CodePoint(bs) == n
  {
    var a, b, c, d := n / 64 / 64 / 64, n / 64 / 64 % 64, n / 64 % 64, n % 64;
    assert n == ((a * 64 + b) * 64 + c) * 64 + d;
    var bs := [0xF0 + a, 0x80 + b, 0x80 + c, 0x80 + d] + more;
    assert bs[0] == 0xF0 + a && bs[1] == 0x80 + b && bs[2] == 0x80 + c && bs[3] == 0x80 + d;
  }

  /** Reading the octets of a character gives it back, whatever comes after them. */
  lemma OctetsRoundTrip(c: char, more: seq<Octet>)
    ensures var bs := Octets(c) + more;
      Complete(bs) && SequenceLength(bs[0]) == |Octets(c)| && CharOf(bs) == c
  {
    var n := c as int;
    if n < 0x80 {
      assert (Octets(c) + more)[0] == n;
    } else {
      hide Complete;
      hide CodePoint;
      hide SequenceLength;
      if n < 0x800 {
        TwoOctets(n, more);
      } else if n < 0x1_0000 {
        ThreeOctets(n, more);
      } else {
        FourOctets(n, more);
      }
    }
  }

  lemma Digits64(q: int, r: int)
    requires 0 <= r < 64
    ensures (q * 64 + r) / 64 == q && (q * 64 + r) % 64 == r
  {
  }

  /** A sequence that is taken as valid is the octets of its character. */
  lemma CompleteIsOctets(bs: seq<Octet>)
    requires Complete(bs)
    ensures Octets(CharOf(bs)) == bs[..SequenceLength(bs[0])]
  {
    var n := CodePoint(bs);
    match SequenceLength(bs[0])
    case 1 =>
    case 2 => Digits64(bs[0] as int - 0xC0, bs[1] - 0x80);
    case 3 =>
      Digits64(bs[0] as int - 0xE0, bs[1] - 0x80);
      Digits64((bs[0] as int - 0xE0) * 64 + (bs[1] - 0x80), bs[2] - 0x80);
    case _ =>
      Digits64(bs[0] as int - 0xF0, bs[1] - 0x80);
      Digits64((bs[0] as int - 0xF0) * 64 + (bs[1] - 0x80), bs[2] - 0x80);
      Digits64(((bs[0] as int - 0xF0) * 64 + (bs[1] - 0x80)) * 64 + (bs[2] - 0x80), bs[3] - 0x80);
  }

  /** Octets start with a valid sequence exactly if they start with the octets of some character. */
  lemma CompleteExactly(bs: seq<Octet>)
    ensures Complete(bs) <==> exists c :: Octets(c) <= bs
  {
    hide Octets;
    hide CodePoint;
    if Complete(bs) {
      CompleteIsOctets(bs);
      hide Complete;
      assert Octets(CharOf(bs)) <= bs;
    }
    if c :| Octets(c) <= bs {
      OctetsRoundTrip(c, bs[|Octets(c)|..]);
      assert Octets(c) + bs[|Octets(c)|..] == bs;
    }
  }

  lemma OctetsAreFew(c: char)
    ensures 1 <= |Octets(c)| <= 4
  {
  }

  // ---------------------------------------------------------------- percent-encoding

  function HexDigit(n: nat): char
    requires n < 16
  {
    if n < 10 then '0' + n as char else 'A' + (n - 10) as char
  }

  function HexValue(c: char): (v: Option<nat>)
    ensures v.Some? ==> v.value < 16
  {
    if '0' <= c <= '9' then Some((c - '0') as nat)
    else if 'A' <= c <= 'F' then Some((c - 'A') as nat + 10)
    else if 'a' <= c <= 'f' then Some((c - 'a') as nat + 10)
    else None
  }

  predicate Letter(c: char) { 'a' <= c <= 'z' || 'A' <= c <= 'Z' }

  predicate Digit(c: char) { '0' <= c <= '9' }

  /** What `encodeURIComponent` leaves alone. */
  predicate Unreserved(c: char) { Letter(c) || Digit(c) || c in "-_.!~*'()" }

  /** Hexadecimal digits by their codes, in either case. */
  lemma HexExactly(c: char)
    ensures var n := c as int;
      HexValue(c) ==
        if 48 <= n < 58 then Some(n - 48) else if 65 <= n < 71 then Some(n - 55) else if 97 <= n < 103 then Some(n - 87) else None
  {
  }

  /** The characters that are not escaped, by their codes: letters, digits and nine marks. */
  lemma UnreservedExactly(c: char)
    ensures Unreserved(c) <==> var n := c as int;
      65 <= n <= 90 || 97 <= n <= 122 || 48 <= n <= 57 || n in {45, 95, 46, 33, 126, 42, 39, 40, 41}
  {
  }

  /** The escape of one octet. */
  function Triple(b: Octet): (s: string)
    ensures |s| == 3
  {
    ['%', HexDigit(b / 16), HexDigit(b % 16)]
  }

  /** One escape for each octet. */
  function Percent(bs: seq<Octet>): (s: string)
    ensures |s| == 3 * |bs|
  {
    if bs == [] then "" else Triple(bs[0]) + Percent(bs[1..])
  }

  function Escape(c: char): string {
    if Unreserved(c) then [c] else Percent(Octets(c))
  }

  /** `encodeURIComponent`. */
  function Encode(s: string): string {
    if s == "" then "" else Escape(s[0]) + Encode(s[1..])
  }

  /** The octet an escape at the start of the text stands for. */
  function EscapedOctet(s: string): Option<Octet> {
    if |s| >= 3 && s[0] == '%' && HexValue(s[1]).Some? && HexValue(s[2]).Some?
    then Some(16 * HexValue(s[1]).value + HexValue(s[2]).value)
    else None
  }

  /** The octets of the escapes at the start of the text, at most `n` of them. */
  function EscapedRun(s: string, n: nat): (bs: seq<Octet>)
    ensures 3 * |bs| <= |s|
  {
    if n == 0 || EscapedOctet(s).None? then [] else [EscapedOctet(s).value] + EscapedRun(s[3..], n - 1)
  }

  /** `decodeURIComponent`, which throws at a `%` that starts no valid sequence of escapes. */
  function Decode(s: string): Option<string> {
    if s == "" then Some("")
    else if s[0] == '%' then
      var bs := EscapedRun(s, 4);
      if !Complete(bs) then None
      else
        var rest := Decode(s[3 * SequenceLength(bs[0])..]);
        if rest.None? then None else Some([CharOf(bs)] + rest.value)
    else
      var rest := Decode(s[1..]);
      if rest.None? then None else Some([s[0]] + rest.value)
  }

  const REPLACEMENT: char := '\U{FFFD}'

  /**
   * The decoding of query strings: `+` is a space, a stray `%` stays, and each broken sequence of
   * octets becomes a replacement character. A character that is not escaped never completes one.
   */
  function FormDecode(s: string): string {
    if s == "" then ""
    else
      var bs := EscapedRun(s, 4);
      if bs == [] then [if s[0] == '+' then ' ' else s[0]] + FormDecode(s[1..])
      else if Complete(bs) then [CharOf(bs)] + FormDecode(s[3 * SequenceLength(bs[0])..])
      else [REPLACEMENT] + FormDecode(s[3 * (if SequenceLength(bs[0]) == 0 then 1 else Matched(bs))..])
  }

  /** In a query a plus is a space. */
  lemma PlusIsSpace(s: string)
    ensures FormDecode("+" + s) == " " + FormDecode(s)
  {
    assert ("+" + s)[1..] == s;
  }

  /** An octet that starts no sequence, or whose sequence breaks off at once, becomes one replacement character. */
  lemma BrokenIsReplaced(b: Octet, s: string)
    requires 0x80 <= b < 0xC2 || 0xF5 <= b || (0xC2 <= b && EscapedOctet(s) == None)
    ensures FormDecode(Triple(b) + s) == "\U{FFFD}" + FormDecode(s)
  {
    hide Triple;
    var url := Triple(b) + s;
    OneEscape(b, s);
    RunStep(Triple(b), s, b, 4);
    assert url[3..] == s;
    var bs := EscapedRun(url, 4);
    assert bs[0] == b && (SequenceLength(b) == 0 || |bs| == 1);
    hide EscapedOctet;
    hide EscapedRun;
    assert !Complete(bs) && (SequenceLength(b) == 0 || Matched(bs) == 1);
    hide Complete;
    hide Matched;
    hide SequenceLength;
  }

  lemma HexRoundTrip(n: nat)
    requires n < 16
    ensures HexValue(HexDigit(n)) == Some(n)
  {
  }

  lemma OneEscape(b: Octet, rest: string)
    ensures EscapedOctet(Triple(b) + rest) == Some(b)
  {
    HexRoundTrip(b / 16);
    HexRoundTrip(b % 16);
  }

  lemma RunStep(head: string, tail: string, b: Octet, n: nat)
    requires n > 0 && |head| == 3 && EscapedOctet(head + tail) == Some(b)
    ensures EscapedRun(head + tail, n) == [b] + EscapedRun(tail, n - 1)
  {
    assert (head + tail)[3..] == tail;
  }

  lemma Associates<T>(a: seq<T>, b: seq<T>, c: seq<T>)
    ensures a + b + c == a + (b + c)
  {
  }

  lemma PercentStep(bs: seq<Octet>, rest: string)
    requires bs != []
    ensures Percent(bs) + rest == Triple(bs[0]) + (Percent(bs[1..]) + rest)
  {
    hide Triple;
    Associates(Triple(bs[0]), Percent(bs[1..]), rest);
  }

  /** The escapes of some octets read as those octets, and then as what follows. */
  lemma {:induction false} RunOfPercent(bs: seq<Octet>, rest: string, n: nat)
    requires n >= |bs|
    ensures EscapedRun(Percent(bs) + rest, n) == bs + EscapedRun(rest, n - |bs|)
  {
    if bs == [] {
      hide EscapedRun;
      assert Percent(bs) + rest == rest && bs + EscapedRun(rest, n) == EscapedRun(rest, n);
    } else {
      hide *;
      var tail := Percent(bs[1..]) + rest;
      PercentStep(bs, rest);
      OneEscape(bs[0], tail);
      RunStep(Triple(bs[0]), tail, bs[0], n);
      RunOfPercent(bs[1..], rest, n - 1);
      Associates([bs[0]], bs[1..], EscapedRun(rest, n - |bs|));
      assert [bs[0]] + bs[1..] == bs;
    }
  }

  lemma EscapeRoundTrip(c: char, rest: string)
    ensures var s := Escape(c) + rest; var bs := EscapedRun(s, 4);
      if Unreserved(c) then s[0] == c && s[0] != '%' && s[0] != '+' && s[1..] == rest && bs == []
      else s[0] == '%' && Complete(bs) && CharOf(bs) == c && s[3 * SequenceLength(bs[0])..] == rest
  {
    if !Unreserved(c) {
      var octets := Octets(c);
      OctetsAreFew(c);
      OctetsRoundTrip(c, EscapedRun(rest, 4 - |octets|));
      RunOfPercent(octets, rest, 4);
    }
  }

  /** Both decoders undo the encoder, on every text. */
  lemma {:induction false} DecodeUndoesEncode(s: string)
    ensures Decode(Encode(s)) == Some(s) && FormDecode(Encode(s)) == s
  {
    if s != "" {
      hide Escape;
      hide EscapedRun;
      hide Complete;
      hide CharOf;
      hide SequenceLength;
      DecodeUndoesEncode(s[1..]);
      EscapeRoundTrip(s[0], Encode(s[1..]));
      assert [s[0]] + s[1..] == s;
    }
  }

  lemma {:induction false} PercentIsSafe(bs: seq<Octet>)
    ensures forall i :: 0 <= i < |Percent(bs)| ==> Unreserved(Percent(bs)[i]) || Percent(bs)[i] == '%'
  {
    if bs != [] {
      PercentIsSafe(bs[1..]);
    }
  }

  /** An encoded text holds only unreserved characters and escapes. */
  lemma {:induction false} EncodedIsSafe(s: string)
    ensures forall i :: 0 <= i < |Encode(s)| ==> Unreserved(Encode(s)[i]) || Encode(s)[i] == '%'
    ensures s != "" ==> Encode(s) != ""
  {
    if s != "" {
      EncodedIsSafe(s[1..]);
      PercentIsSafe(Octets(s[0]));
    }
  }

  lemma {:induction false} DecodePlainPrefix(a: string, b: string)
    requires '%' !in a
    ensures Decode(a + b) == if Decode(b).None? then None else Some(a + Decode(b).value)
  {
    var rest := Decode(b);
    if a == "" {
      assert a + b == b && (rest.Some? ==> a + rest.value == rest.value);
    } else {
      assert (a + b)[1..] == a[1..] + b;
      DecodePlainPrefix(a[1..], b);
      assert rest.Some? ==> [a[0]] + (a[1..] + rest.value) == a + rest.value;
    }
  }

  lemma {:induction false} DecodeShrinks(s: string)
    requires Decode(s).Some?
    ensures |Decode(s).value| <= |s|
    ensures '%' in s ==> |Decode(s).value| < |s|
    ensures s != "" ==> Decode(s).value != ""
  {
    if s != "" {
      if s[0] == '%' {
        DecodeShrinks(s[3 * SequenceLength(EscapedRun(s, 4)[0])..]);
      } else {
        DecodeShrinks(s[1..]);
      }
    }
  }

  lemma {:induction false} FormDecodeShrinks(s: string)
    ensures |FormDecode(s)| <= |s|
  {
    if s != "" {
      var bs := EscapedRun(s, 4);
      if bs == [] {
        FormDecodeShrinks(s[1..]);
      } else if Complete(bs) {
        FormDecodeShrinks(s[3 * SequenceLength(bs[0])..]);
      } else {
        FormDecodeShrinks(s[3 * (if SequenceLength(bs[0]) == 0 then 1 else Matched(bs))..]);
      }
    }
  }

  /** Decoding a text changes nothing exactly when it holds no percent sign. */
  lemma DecodesToItselfExactly(s: string)
    ensures Decode(s) == Some(s) <==> '%' !in s
  {
    if '%' !in s {
      DecodePlainPrefix(s, "");
      assert s + "" == s;
    } else if Decode(s) == Some(s) {
      DecodeShrinks(s);
    }
  }
}
