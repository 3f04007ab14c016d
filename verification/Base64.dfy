/** The standard Base64 encoding: section 4 of RFC 4648, padded, no line breaks. */
module Base64 {
  import opened Basics
  import opened Json

  function SextetChar(i: nat): (c: char)
    requires i < 64
    ensures ' ' <= c <= '~' && c != '"' && c != '\\' && c != '='
  {
    if i < 26 then 'A' + i as char
    else if i < 52 then 'a' + (i - 26) as char
    else if i < 62 then '0' + (i - 52) as char
    else if i == 62 then '+' else '/'
  }

  function CharSextet(c: char): (r: Option<nat>)
    ensures r.Some? ==> r.value < 64
  {
    if 'A' <= c <= 'Z' then Some(c as int - 'A' as int)
    else if 'a' <= c <= 'z' then Some(c as int - 'a' as int + 26)
    else if '0' <= c <= '9' then Some(c as int - '0' as int + 52)
    else if c == '+' then Some(62)
    else if c == '/' then Some(63)
    else None
  }

  lemma SextetRoundTrip(i: nat)
    requires i < 64
    ensures CharSextet(SextetChar(i)) == Some(i)
  {
  }

  // Two, three or four characters for one, two or three octets, and the padding.
  function EncodeGroup(b: seq<byte>): (s: Ascii)
    requires 1 <= |b| <= 3
    ensures |s| == 4
    ensures forall i :: 0 <= i < 4 ==> ' ' <= s[i] <= '~' && s[i] != '"' && s[i] != '\\'
  {
    var b1 := if |b| > 1 then b[1] else 0;
    var b2 := if |b| > 2 then b[2] else 0;
    [SextetChar(b[0] / 4),
     SextetChar(b[0] % 4 * 16 + b1 / 16),
     if |b| > 1 then SextetChar(b1 % 16 * 4 + b2 / 64) else '=',
     if |b| > 2 then SextetChar(b2 % 64) else '=']
  }

  function Encode(b: seq<byte>): (s: Ascii)
    ensures |s| == 4 * ((|b| + 2) / 3)
  {
    if b == [] then "" else if |b| <= 3 then EncodeGroup(b) else EncodeGroup(b[..3]) + Encode(b[3..])
  }

  // Padding closes the text: only the last group may carry it.
  function DecodeGroup(s: string, last: bool): Option<seq<byte>>
    requires |s| == 4
  {
    match (CharSextet(s[0]), CharSextet(s[1]))
    case (Some(x), Some(y)) =>
      if last && s[2] == '=' && s[3] == '=' then Some([x * 4 + y / 16])
      else (match CharSextet(s[2])
            case Some(z) =>
              if last && s[3] == '=' then Some([x * 4 + y / 16, y % 16 * 16 + z / 4])
              else (match CharSextet(s[3])
                    case Some(w) => Some([x * 4 + y / 16, y % 16 * 16 + z / 4, z % 4 * 64 + w])
                    case None => None)
            case None => None)
    case _ => None
  }

  function Decode(s: string): Option<seq<byte>> {
    if s == "" then Some([])
    else if |s| < 4 then None
    else
      match DecodeGroup(s[..4], |s| == 4)
      case None => None
      case Some(head) =>
        match Decode(s[4..])
        case None => None
        case Some(rest) => Some(head + rest)
  }

  // The bits of three octets, regrouped in sixes and back.
  lemma Regroup(x: byte, y: byte, z: byte)
    ensures x / 4 * 4 + (x % 4 * 16 + y / 16) / 16 == x
    ensures (x % 4 * 16 + y / 16) % 16 * 16 + (y % 16 * 4 + z / 64) / 4 == y
    ensures (y % 16 * 4 + z / 64) % 4 * 64 + z % 64 == z
  {
  }

  lemma GroupRoundTrip(b: seq<byte>, last: bool)
    requires 1 <= |b| <= 3
    requires |b| < 3 ==> last
    ensures DecodeGroup(EncodeGroup(b), last) == Some(b)
  {
    hide SextetChar, CharSextet;
    var b1 := if |b| > 1 then b[1] else 0;
    var b2 := if |b| > 2 then b[2] else 0;
    SextetRoundTrip(b[0] / 4);
    SextetRoundTrip(b[0] % 4 * 16 + b1 / 16);
    SextetRoundTrip(b1 % 16 * 4 + b2 / 64);
    SextetRoundTrip(b2 % 64);
    Regroup(b[0], b1, b2);
    var s := EncodeGroup(b);
    if |b| == 1 {
      assert DecodeGroup(s, last) == Some([b[0]]);
      assert b == [b[0]];
    } else if |b| == 2 {
      assert DecodeGroup(s, last) == Some([b[0], b1]);
      assert b == [b[0], b[1]];
    } else {
      assert DecodeGroup(s, last) == Some([b[0], b1, b2]);
      assert b == [b[0], b[1], b[2]];
    }
  }

  // Decoding undoes encoding, for every octet sequence.
  lemma {:induction false} RoundTrip(b: seq<byte>)
    ensures Decode(Encode(b)) == Some(b)
  {
    var s := Encode(b);
    hide EncodeGroup, DecodeGroup;
    if b == [] {
    } else if |b| <= 3 {
      GroupRoundTrip(b, true);
      assert s[..4] == EncodeGroup(b) && s[4..] == "";
      assert Decode("") == Some([]);
      assert b + [] == b;
    } else {
      GroupRoundTrip(b[..3], |s| == 4);
      RoundTrip(b[3..]);
      assert s[..4] == EncodeGroup(b[..3]) && s[4..] == Encode(b[3..]);
      assert b == b[..3] + b[3..];
    }
  }

  predicate Plain(s: string) {
    forall i :: 0 <= i < |s| ==> ' ' <= s[i] <= '~' && s[i] != '"' && s[i] != '\\'
  }

  lemma {:induction false} EncodeIsPlain(b: seq<byte>)
    ensures Plain(Encode(b))
  {
    if |b| > 3 { EncodeIsPlain(b[3..]); }
  }

  // Base64 text needs no JSON escape: quoting adds the two quotes and nothing else.
  lemma {:induction false} PlainEscape(s: string)
    requires Plain(s)
    ensures Escape(s) == s
  {
    if s != "" {
      PlainEscape(s[1..]);
      assert s == [s[0]] + s[1..];
    }
  }
}
