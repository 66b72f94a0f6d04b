/** The chat transcript as JSON lines (src/chat/k3_chat.c): what is written is read back, and
    what else is accepted means what JSON says it means.  A C string is a `string` whose
    characters are bytes; the NUL that ends it is what reading past the end yields. */
module ChatJson {
  import opened Common

  const NUL: char := '\0'
  const QUOTE: char := 34 as char
  const ROLE := "role"
  const CONTENT := "content"
  const REASONING := "reasoning_content"
  const LIMIT: nat := 16 * 1024 * 1024

  ghost predicate CString(s: string) {
    forall i :: 0 <= i < |s| ==> NUL < s[i] && s[i] as int < 256
  }

  function At(line: string, p: nat): char {
    if p < |line| then line[p] else NUL
  }

  /* ------------------------------------------------------------ writing a string */

  function HexDigit(n: nat, upper: bool): (c: char)
    requires n < 16
  {
    if n < 10 then '0' + n as char else (if upper then 'A' else 'a') + (n - 10) as char
  }

  /** One byte as `jwrite` puts it between quotes. */
  function Esc(c: char): string
    requires c as int < 256
  {
    if c == QUOTE then "\\\""
    else if c == '\\' then "\\\\"
    else if c == '\n' then "\\n"
    else if c == '\r' then "\\r"
    else if c == '\t' then "\\t"
    else if c < ' ' then "\\u00" + [HexDigit(c as int / 16, false), HexDigit(c as int % 16, false)]
    else [c]
  }

  function Body(s: string): string
    requires CString(s)
  {
    if s == "" then "" else Esc(s[0]) + Body(s[1..])
  }

  function Quoted(s: string): string
    requires CString(s)
  {
    "\"" + Body(s) + "\""
  }

  lemma {:induction false} BodySnoc(s: string, c: char)
    requires CString(s) && NUL < c && c as int < 256
    ensures Body(s + [c]) == Body(s) + Esc(c)
  {
    hide Esc;
    if s == "" {
      assert s + [c] == [c] && [c][1..] == "" && Body("") == "";
    } else {
      BodySnoc(s[1..], c);
      assert (s + [c])[1..] == s[1..] + [c];
    }
  }

  method JWrite(s: string) returns (out: string)
    requires CString(s)
    ensures out == Quoted(s)
  {
    hide Esc;
    out := "\"";
    for i := 0 to |s|
      invariant out == "\"" + Body(s[..i])
    {
      BodySnoc(s[..i], s[i]);
      assert s[..i + 1] == s[..i] + [s[i]];
      out := out + Esc(s[i]);
    }
    assert s[..|s|] == s;
    out := out + "\"";
  }

  /* ------------------------------------------------------------ UTF-8 */

  /** A Unicode scalar value other than zero. */
  predicate Scalar(cp: int) {
    0 < cp < 0xd800 || 0xe000 <= cp < 0x110000
  }

  /** The bytes the parser emits for a code point. */
  function Utf8(cp: nat): string
    requires cp < 0x110000
  {
    if cp < 0x80 then [cp as char]
    else if cp < 0x800 then [(0xc0 + cp / 64) as char, (0x80 + cp % 64) as char]
    else if cp < 0x10000 then [(0xe0 + cp / 4096) as char, (0x80 + cp / 64 % 64) as char, (0x80 + cp % 64) as char]
    else [(0xf0 + cp / 262144) as char, (0x80 + cp / 4096 % 64) as char, (0x80 + cp / 64 % 64) as char,
      (0x80 + cp % 64) as char]
  }

  predicate Continues(c: char) {
    0x80 <= c as int < 0xc0
  }

  /** What one UTF-8 sequence means: section 3 of RFC 3629, shortest forms only, no surrogates. */
  function Utf8Meaning(s: string): Option<int> {
    var cp :=
      if |s| == 1 && s[0] as int < 0x80 then s[0] as int
      else if |s| == 2 && 0xc0 <= s[0] as int < 0xe0 && Continues(s[1]) then
        var v := (s[0] as int - 0xc0) * 64 + (s[1] as int - 0x80);
        if v >= 0x80 then v else -1
      else if |s| == 3 && 0xe0 <= s[0] as int < 0xf0 && Continues(s[1]) && Continues(s[2]) then
        var v := (s[0] as int - 0xe0) * 4096 + (s[1] as int - 0x80) * 64 + (s[2] as int - 0x80);
        if v >= 0x800 then v else -1
      else if |s| == 4 && 0xf0 <= s[0] as int < 0xf8 && Continues(s[1]) && Continues(s[2]) && Continues(s[3]) then
        var v := (s[0] as int - 0xf0) * 262144 + (s[1] as int - 0x80) * 4096 + (s[2] as int - 0x80) * 64
            + (s[3] as int - 0x80);
        if v >= 0x10000 then v else -1
      else -1;
    if Scalar(cp) then Some(cp) else None
  }

  /** The emitted bytes are the one encoding of that code point. */
  lemma Utf8IsTheEncoding(cp: nat, s: string)
    requires Scalar(cp)
    ensures Utf8Meaning(s) == Some(cp) <==> s == Utf8(cp)
  {
    hide Utf8Meaning;
    Utf8Means(cp);
    if Utf8Meaning(s) == Some(cp) { Utf8Unique(cp, s); }
  }

  lemma Utf8Means(cp: nat)
    requires Scalar(cp)
    ensures Utf8Meaning(Utf8(cp)) == Some(cp)
  {
    Digits64(cp);
  }

  lemma Utf8Unique(cp: nat, s: string)
    requires Scalar(cp) && Utf8Meaning(s) == Some(cp)
    ensures s == Utf8(cp)
  {
    if |s| == 2 {
      TwoDigits(s[0] as int - 0xc0, s[1] as int - 0x80, cp);
    } else if |s| == 3 {
      ThreeDigits(s[0] as int - 0xe0, s[1] as int - 0x80, s[2] as int - 0x80, cp);
    } else if |s| == 4 {
      FourDigits(s[0] as int - 0xf0, s[1] as int - 0x80, s[2] as int - 0x80, s[3] as int - 0x80, cp);
    }
  }

  lemma Digits64(cp: nat)
    ensures cp == cp / 64 * 64 + cp % 64
    ensures cp / 64 == cp / 4096 * 64 + cp / 64 % 64
    ensures cp / 4096 == cp / 262144 * 64 + cp / 4096 % 64
  {
  }

  lemma TwoDigits(a: int, b: int, cp: nat)
    requires 0 <= b < 64 && cp == a * 64 + b
    ensures a == cp / 64 && b == cp % 64
  {
  }

  lemma ThreeDigits(a: int, b: int, c: int, cp: nat)
    requires 0 <= b < 64 && 0 <= c < 64 && cp == a * 4096 + b * 64 + c
    ensures a == cp / 4096 && b == cp / 64 % 64 && c == cp % 64
  {
  }

  lemma FourDigits(a: int, b: int, c: int, d: int, cp: nat)
    requires 0 <= b < 64 && 0 <= c < 64 && 0 <= d < 64 && cp == a * 262144 + b * 4096 + c * 64 + d
    ensures a == cp / 262144 && b == cp / 4096 % 64 && c == cp / 64 % 64 && d == cp % 64
  {
    TwoDigits(a * 4096 + b * 64 + c, d, cp);
    ThreeDigits(a, b, c, cp / 64);
    Shifts(cp);
  }

  lemma Shifts(cp: nat)
    ensures cp / 64 / 64 == cp / 4096 && cp / 64 / 4096 == cp / 262144
  {
  }

  /* ------------------------------------------------------------ reading a string */

  function Hex(c: char): (r: int)
    ensures -1 <= r < 16
  {
    if '0' <= c <= '9' then c as int - '0' as int
    else if 'a' <= c <= 'f' then c as int - 'a' as int + 10
    else if 'A' <= c <= 'F' then c as int - 'A' as int + 10
    else -1
  }

  /** Four hex digits at p, or -1. */
  function Hex4(line: string, p: nat): (r: int)
    ensures -1 <= r < 0x10000
  {
    var a, b, c, d := Hex(At(line, p)), Hex(At(line, p + 1)), Hex(At(line, p + 2)), Hex(At(line, p + 3));
    if a < 0 || b < 0 || c < 0 || d < 0 then -1 else a * 4096 + b * 256 + c * 16 + d
  }

  /** What one character or escape contributes, and where the next one starts. */
  datatype Piece = Piece(out: string, next: nat)

  /** After \\u: one escape, or a surrogate pair of two. */
  function Unicode(line: string, p: nat): Option<Piece> {
    var u := Hex4(line, p);
    if u < 0 then None
    else if 0xd800 <= u <= 0xdbff then
      var lo := Hex4(line, p + 6);
      if At(line, p + 4) != '\\' || At(line, p + 5) != 'u' || lo < 0xdc00 || lo > 0xdfff then None
      else Some(Piece(Utf8(0x10000 + (u - 0xd800) * 1024 + (lo - 0xdc00)), p + 10))
    else if 0xdc00 <= u <= 0xdfff || u == 0 then None
    else Some(Piece(Utf8(u), p + 4))
  }

  function ReadPiece(line: string, p: nat): (r: Option<Piece>)
    ensures r.Some? ==> r.value.next > p
  {
    var c := At(line, p);
    if c < ' ' then None
    else if c != '\\' then Some(Piece([c], p + 1))
    else
      var e := At(line, p + 1);
      if e == QUOTE || e == '\\' || e == '/' then Some(Piece([e], p + 2))
      else if e == 'b' then Some(Piece([8 as char], p + 2))
      else if e == 'f' then Some(Piece([12 as char], p + 2))
      else if e == 'n' then Some(Piece(['\n'], p + 2))
      else if e == 'r' then Some(Piece(['\r'], p + 2))
      else if e == 't' then Some(Piece(['\t'], p + 2))
      else if e == 'u' then Unicode(line, p + 2)
      else None
  }

  /** The rest of a string from p on, after `acc`; the result is the text and the position past
      the closing quote. */
  function StrFrom(line: string, p: nat, acc: string): (r: Option<(string, nat)>)
    ensures r.Some? ==> r.value.1 > p
    decreases |line| - p
  {
    if At(line, p) == QUOTE then Some((acc, p + 1))
    else if At(line, p) == NUL then None
    else match ReadPiece(line, p)
      case None => None
      case Some(x) => StrFrom(line, x.next, acc + x.out)
  }

  function Str(line: string, p: nat): (r: Option<(string, nat)>)
    ensures r.Some? ==> r.value.1 > p
  {
    if At(line, p) != QUOTE then None else StrFrom(line, p + 1, "")
  }

  /** `jstr`. */
  method JStr(line: string, p0: nat) returns (r: Option<(string, nat)>)
    ensures r == Str(line, p0)
  {
    hide ReadPiece;
    if At(line, p0) != QUOTE { return None; }
    var p, v := p0 + 1, "";
    while At(line, p) != NUL && At(line, p) != QUOTE
      invariant Str(line, p0) == StrFrom(line, p, v)
      decreases |line| - p
    {
      var x := ReadPiece(line, p);
      if x.None? { return None; }
      p, v := x.value.next, v + x.value.out;
    }
    r := if At(line, p) == QUOTE then Some((v, p + 1)) else None;
  }

  /* ------------------------------------------------------------ reading what was written */

  lemma AtMiddle(pre: string, mid: string, rest: string, k: nat)
    requires k < |mid|
    ensures At(pre + mid + rest, |pre| + k) == mid[k]
  {
  }

  lemma HexOfDigit(n: nat, upper: bool)
    requires n < 16
    ensures Hex(HexDigit(n, upper)) == n
  {
  }

  /** Every byte comes back from its escape. */
  lemma ReadEsc(pre: string, c: char, rest: string)
    requires NUL < c && c as int < 256
    ensures var line := pre + Esc(c) + rest;
            && At(line, |pre|) != NUL && At(line, |pre|) != QUOTE
            && ReadPiece(line, |pre|) == Some(Piece([c], |pre| + |Esc(c)|))
  {
    var line := pre + Esc(c) + rest;
    AtMiddle(pre, Esc(c), rest, 0);
    if |Esc(c)| > 1 { AtMiddle(pre, Esc(c), rest, 1); }
    if |Esc(c)| == 6 {
      AtMiddle(pre, Esc(c), rest, 2);
      AtMiddle(pre, Esc(c), rest, 3);
      AtMiddle(pre, Esc(c), rest, 4);
      AtMiddle(pre, Esc(c), rest, 5);
      HexOfDigit(c as int / 16, false);
      HexOfDigit(c as int % 16, false);
      assert Hex4(line, |pre| + 2) == c as int;
    }
  }

  lemma {:induction false} ReadBody(pre: string, s: string, rest: string, acc: string)
    requires CString(s)
    ensures StrFrom(pre + (Body(s) + "\"" + rest), |pre|, acc) == Some((acc + s, |pre| + |Body(s)| + 1))
    decreases |s|
  {
    hide Esc, ReadPiece;
    var line := pre + (Body(s) + "\"" + rest);
    if s == "" {
      assert acc + s == acc && line[|pre|] == QUOTE;
    } else {
      var tail := Body(s[1..]) + "\"" + rest;
      assert line == pre + Esc(s[0]) + tail;
      ReadEsc(pre, s[0], tail);
      assert line == (pre + Esc(s[0])) + tail;
      ReadBody(pre + Esc(s[0]), s[1..], rest, acc + [s[0]]);
      assert acc + [s[0]] + s[1..] == acc + s;
    }
  }

  /** A quoted string is read back, wherever it stands. */
  lemma ReadQuoted(pre: string, s: string, rest: string)
    requires CString(s)
    ensures Str(pre + (Quoted(s) + rest), |pre|) == Some((s, |pre| + |Quoted(s)|))
  {
    hide StrFrom, Body;
    ReadBody(pre + "\"", s, rest, "");
    assert pre + (Quoted(s) + rest) == (pre + "\"") + (Body(s) + "\"" + rest);
    assert "" + s == s;
  }

  /* ------------------------------------------------------------ escapes mean what JSON says */

  function Hex4Of(u: nat, upper: bool): string
    requires u < 0x10000
  {
    [HexDigit(u / 4096, upper), HexDigit(u / 256 % 16, upper), HexDigit(u / 16 % 16, upper), HexDigit(u % 16, upper)]
  }

  /** The \\u escape of a code point: section 7 of RFC 8259, a surrogate pair beyond the BMP. */
  function EscapeOf(cp: nat, upper: bool): string
    requires cp < 0x110000
  {
    if cp < 0x10000 then "\\u" + Hex4Of(cp, upper)
    else "\\u" + Hex4Of(0xd800 + (cp - 0x10000) / 1024, upper) + "\\u" + Hex4Of(0xdc00 + (cp - 0x10000) % 1024, upper)
  }

  lemma Hex4Reads(pre: string, u: nat, upper: bool, rest: string)
    requires u < 0x10000
    ensures Hex4(pre + (Hex4Of(u, upper) + rest), |pre|) == u
  {
    var line := pre + (Hex4Of(u, upper) + rest);
    assert line == pre + Hex4Of(u, upper) + rest;
    AtMiddle(pre, Hex4Of(u, upper), rest, 0);
    AtMiddle(pre, Hex4Of(u, upper), rest, 1);
    AtMiddle(pre, Hex4Of(u, upper), rest, 2);
    AtMiddle(pre, Hex4Of(u, upper), rest, 3);
    HexOfDigit(u / 4096, upper);
    HexOfDigit(u / 256 % 16, upper);
    HexOfDigit(u / 16 % 16, upper);
    HexOfDigit(u % 16, upper);
    Digits16(u);
  }

  lemma Digits16(u: nat)
    ensures u == u / 4096 * 4096 + u / 256 % 16 * 256 + u / 16 % 16 * 16 + u % 16
  {
    assert u == u / 16 * 16 + u % 16;
    assert u / 16 == u / 256 * 16 + u / 16 % 16;
    assert u / 256 == u / 4096 * 16 + u / 256 % 16;
  }

  /** Each escape of a code point, in either case of digits, becomes its UTF-8 bytes. */
  lemma EscapeMeansUtf8(pre: string, cp: nat, upper: bool, rest: string)
    requires Scalar(cp)
    ensures ReadPiece(pre + (EscapeOf(cp, upper) + rest), |pre|) == Some(Piece(Utf8(cp), |pre| + |EscapeOf(cp, upper)|))
  {
    hide Hex4, Hex4Of, Utf8;
    if cp < 0x10000 {
      var line := pre + (EscapeOf(cp, upper) + rest);
      assert line == (pre + "\\u") + (Hex4Of(cp, upper) + rest);
      Hex4Reads(pre + "\\u", cp, upper, rest);
      Hex4Length(cp, upper);
      assert line[|pre|] == '\\' && line[|pre| + 1] == 'u';
    } else {
      Pairing(cp - 0x10000);
      PairReads(pre, 0xd800 + (cp - 0x10000) / 1024, 0xdc00 + (cp - 0x10000) % 1024, upper, rest);
      Hex4Length(0xd800 + (cp - 0x10000) / 1024, upper);
      Hex4Length(0xdc00 + (cp - 0x10000) % 1024, upper);
    }
  }

  lemma PairReads(pre: string, hi: nat, lo: nat, upper: bool, rest: string)
    requires 0xd800 <= hi <= 0xdbff && 0xdc00 <= lo <= 0xdfff
    ensures ReadPiece(pre + ("\\u" + Hex4Of(hi, upper) + "\\u" + Hex4Of(lo, upper) + rest), |pre|)
         == Some(Piece(Utf8(0x10000 + (hi - 0xd800) * 1024 + (lo - 0xdc00)), |pre| + 12))
  {
    hide Hex4, Hex4Of, Utf8;
    var a, b := Hex4Of(hi, upper), Hex4Of(lo, upper);
    Hex4Length(hi, upper);
    Hex4Length(lo, upper);
    var line, front := pre + ("\\u" + a + "\\u" + b + rest), pre + "\\u" + a + "\\u";
    assert line == (pre + "\\u") + (a + ("\\u" + b + rest));
    Hex4Reads(pre + "\\u", hi, upper, "\\u" + b + rest);
    assert line == front + (b + rest);
    Hex4Reads(front, lo, upper, rest);
    assert line[|pre|] == '\\' && line[|pre| + 1] == 'u' && line[|pre| + 6] == '\\' && line[|pre| + 7] == 'u';
  }

  lemma Hex4Length(u: nat, upper: bool)
    requires u < 0x10000
    ensures |Hex4Of(u, upper)| == 4
  {
  }

  lemma Pairing(v: nat)
    requires v < 0x100000
    ensures v / 1024 < 1024 && v / 1024 * 1024 + v % 1024 == v
  {
  }

  /** The escape of a low surrogate comes next. */
  predicate LowFollows(rest: string) {
    At(rest, 0) == '\\' && At(rest, 1) == 'u' && 0xdc00 <= Hex4(rest, 2) <= 0xdfff
  }

  /** A surrogate without its partner, and NUL, are refused: a high surrogate unless the escape
      of a low one follows, a low one anywhere else. */
  lemma LoneSurrogateRefused(pre: string, u: nat, upper: bool, rest: string)
    requires 0xd800 <= u <= 0xdfff || u == 0
    requires 0xd800 <= u <= 0xdbff ==> !LowFollows(rest)
    ensures ReadPiece(pre + ("\\u" + Hex4Of(u, upper) + rest), |pre|) == None
  {
    hide Hex4Of, Utf8, Hex;
    var line := pre + ("\\u" + Hex4Of(u, upper) + rest);
    Hex4Length(u, upper);
    var front := pre + "\\u" + Hex4Of(u, upper);
    assert line == (pre + "\\u") + (Hex4Of(u, upper) + rest) == front + rest;
    Hex4Reads(pre + "\\u", u, upper, rest);
    assert line[|pre|] == '\\' && line[|pre| + 1] == 'u';
    assert forall k: nat :: At(line, |front| + k) == At(rest, k);
    assert Hex4(line, |front| + 2) == Hex4(rest, 2);
  }

  /* ------------------------------------------------------------ string literals, exactly */

  /** `t` stands in the line at p. */
  ghost predicate Holds(line: string, p: nat, t: string) {
    p + |t| <= |line| && line[p..p + |t|] == t
  }

  lemma HoldsSplit(line: string, p: nat, a: string, b: string)
    requires Holds(line, p, a + b)
    ensures Holds(line, p, a) && Holds(line, p + |a|, b)
  {
    assert line[p..p + |a|] == line[p..p + |a + b|][..|a|];
    assert line[p + |a|..p + |a| + |b|] == line[p..p + |a + b|][|a|..];
  }

  lemma HoldsFirst(line: string, p: nat, t: string)
    requires Holds(line, p, t) && t != ""
    ensures At(line, p) == t[0]
  {
    assert line[p..p + |t|][0] == line[p];
  }

  lemma HoldsInside(line: string, p: nat, t: string)
    requires Holds(line, p, t) && t != ""
    ensures p < |line| && line[p] == t[0]
  {
    HoldsFirst(line, p, t);
  }

  lemma HoldsJoin(line: string, p: nat, a: string, b: string)
    requires Holds(line, p, a) && Holds(line, p + |a|, b)
    ensures Holds(line, p, a + b)
  {
    assert line[p..p + |a + b|] == line[p..p + |a|] + line[p + |a|..p + |a| + |b|];
  }

  lemma HoldsPart(line: string, p: nat, q: nat)
    requires p <= q <= |line|
    ensures Holds(line, p, line[p..q])
  {
  }

  /** One character or escape between the quotes (section 7 of RFC 8259). */
  datatype Item = Raw(c: char) | Short(c: char) | Code(d: string) | Pair(hi: string, lo: string)

  function ShortMeans(c: char): Option<char> {
    if c == QUOTE || c == '\\' || c == '/' then Some(c)
    else if c == 'b' then Some(8 as char)
    else if c == 'f' then Some(12 as char)
    else if c == 'n' then Some('\n')
    else if c == 'r' then Some('\r')
    else if c == 't' then Some('\t')
    else None
  }

  /** A surrogate stands in a pair only, and NUL is not written at all. */
  predicate ItemOk(x: Item) {
    match x
    case Raw(c) => ' ' <= c && c != QUOTE && c != '\\'
    case Short(c) => ShortMeans(c).Some?
    case Code(d) => |d| == 4 && Scalar(Hex4(d, 0))
    case Pair(hi, lo) => |hi| == 4 && |lo| == 4 && 0xd800 <= Hex4(hi, 0) <= 0xdbff && 0xdc00 <= Hex4(lo, 0) <= 0xdfff
  }

  function ItemText(x: Item): string {
    match x
    case Raw(c) => [c]
    case Short(c) => ['\\', c]
    case Code(d) => "\\u" + d
    case Pair(hi, lo) => "\\u" + (hi + ("\\u" + lo))
  }

  function ItemMeans(x: Item): string
    requires ItemOk(x)
  {
    match x
    case Raw(c) => [c]
    case Short(c) => [ShortMeans(c).value]
    case Code(d) => Utf8(Hex4(d, 0))
    case Pair(hi, lo) => Utf8(0x10000 + (Hex4(hi, 0) - 0xd800) * 1024 + (Hex4(lo, 0) - 0xdc00))
  }

  ghost predicate ItemsOk(items: seq<Item>) {
    forall i :: 0 <= i < |items| ==> ItemOk(items[i])
  }

  function TextOf(items: seq<Item>): string {
    if items == [] then "" else ItemText(items[0]) + TextOf(items[1..])
  }

  function MeaningOf(items: seq<Item>): string
    requires ItemsOk(items)
  {
    if items == [] then "" else ItemMeans(items[0]) + MeaningOf(items[1..])
  }

  function Literal(items: seq<Item>): string {
    "\"" + (TextOf(items) + "\"")
  }

  /** t is a string literal, and v the text it stands for. */
  ghost predicate Spells(t: string, v: string) {
    exists items :: ItemsOk(items) && t == Literal(items) && v == MeaningOf(items)
  }

  lemma HexHere(line: string, p: nat, d: string)
    requires |d| == 4 && Holds(line, p, d)
    ensures Hex4(line, p) == Hex4(d, 0)
  {
    hide Hex;
    var t := line[p..p + 4];
    assert t[0] == line[p] && t[1] == line[p + 1] && t[2] == line[p + 2] && t[3] == line[p + 3];
  }

  lemma HexThere(line: string, p: nat)
    requires Hex4(line, p) >= 0
    ensures p + 4 <= |line| && Hex4(line[p..p + 4], 0) == Hex4(line, p) && Holds(line, p, line[p..p + 4])
  {
    assert Hex(NUL) == -1;
    HexHere(line, p, line[p..p + 4]);
  }

  lemma HoldsTwo(line: string, p: nat, a: char, b: char)
    ensures Holds(line, p, [a, b]) <==> p + 2 <= |line| && line[p] == a && line[p + 1] == b
  {
    if p + 2 <= |line| { assert line[p..p + 2] == [line[p], line[p + 1]]; }
  }

  lemma ItemReads(line: string, p: nat, x: Item)
    requires ItemOk(x) && Holds(line, p, ItemText(x))
    ensures At(line, p) != QUOTE && At(line, p) != NUL && p < |line|
    ensures ReadPiece(line, p) == Some(Piece(ItemMeans(x), p + |ItemText(x)|))
  {
    hide Hex4, Utf8, Holds;
    HoldsFirst(line, p, ItemText(x));
    match x {
      case Raw(_) =>
      case Short(c) => HoldsTwo(line, p, '\\', c);
      case Code(d) =>
        HoldsSplit(line, p, "\\u", d);
        HoldsTwo(line, p, '\\', 'u');
        HexHere(line, p + 2, d);
      case Pair(hi, lo) =>
        HoldsSplit(line, p, "\\u", hi + ("\\u" + lo));
        HoldsSplit(line, p + 2, hi, "\\u" + lo);
        HoldsSplit(line, p + 6, "\\u", lo);
        HoldsTwo(line, p, '\\', 'u');
        HoldsTwo(line, p + 6, '\\', 'u');
        HexHere(line, p + 2, hi);
        HexHere(line, p + 8, lo);
    }
    HoldsInside(line, p, ItemText(x));
  }

  lemma ItemRead(line: string, p: nat) returns (x: Item)
    requires ReadPiece(line, p).Some? && At(line, p) != QUOTE
    ensures ItemOk(x) && Holds(line, p, ItemText(x))
    ensures ReadPiece(line, p) == Some(Piece(ItemMeans(x), p + |ItemText(x)|))
  {
    hide Unicode, At, Holds, ItemOk, ItemText, ItemMeans;
    if At(line, p) != '\\' {
      x := RawRead(line, p);
    } else if At(line, p + 1) != 'u' {
      x := ShortRead(line, p);
    } else {
      x := CodeRead(line, p);
    }
  }

  lemma RawRead(line: string, p: nat) returns (x: Item)
    requires ' ' <= At(line, p) && At(line, p) != QUOTE && At(line, p) != '\\'
    ensures ItemOk(x) && Holds(line, p, ItemText(x)) && ItemMeans(x) == [At(line, p)] && |ItemText(x)| == 1
  {
    x := Raw(line[p]);
    assert line[p..p + 1] == [line[p]];
  }

  lemma ShortRead(line: string, p: nat) returns (x: Item)
    requires ReadPiece(line, p).Some? && At(line, p) == '\\' && At(line, p + 1) != 'u'
    ensures ItemOk(x) && Holds(line, p, ItemText(x))
    ensures ReadPiece(line, p) == Some(Piece(ItemMeans(x), p + |ItemText(x)|))
  {
    hide Unicode, Holds;
    x := Short(line[p + 1]);
    HoldsTwo(line, p, '\\', line[p + 1]);
  }

  lemma CodeRead(line: string, p: nat) returns (x: Item)
    requires At(line, p) == '\\' && At(line, p + 1) == 'u' && Unicode(line, p + 2).Some?
    ensures ItemOk(x) && Holds(line, p, ItemText(x))
    ensures Unicode(line, p + 2) == Some(Piece(ItemMeans(x), p + |ItemText(x)|))
  {
    hide Hex4, Utf8, Holds, At;
    HexThere(line, p + 2);
    EscapeAt(line, p);
    var hi := line[p + 2..p + 6];
    if 0xd800 <= Hex4(line, p + 2) <= 0xdbff {
      HexThere(line, p + 8);
      EscapeAt(line, p + 6);
      var lo := line[p + 8..p + 12];
      x := Pair(hi, lo);
      HoldsJoin(line, p + 6, "\\u", lo);
      HoldsJoin(line, p + 2, hi, "\\u" + lo);
      HoldsJoin(line, p, "\\u", hi + ("\\u" + lo));
    } else {
      x := Code(hi);
      HoldsJoin(line, p, "\\u", hi);
    }
  }

  lemma EscapeAt(line: string, p: nat)
    requires At(line, p) == '\\' && At(line, p + 1) == 'u'
    ensures Holds(line, p, "\\u")
  {
    HoldsTwo(line, p, '\\', 'u');
  }

  lemma {:induction false} ItemsRead(line: string, p: nat, items: seq<Item>, acc: string)
    requires ItemsOk(items) && Holds(line, p, TextOf(items) + "\"")
    ensures StrFrom(line, p, acc) == Some((acc + MeaningOf(items), p + |TextOf(items)| + 1))
    decreases |items|
  {
    hide ReadPiece, Holds, At, ItemText, ItemMeans, ItemOk;
    if items == [] {
      assert "" + "\"" == "\"";
      HoldsFirst(line, p, "\"");
      assert acc + "" == acc;
    } else {
      var x, rest := items[0], items[1..];
      assert TextOf(items) + "\"" == ItemText(x) + (TextOf(rest) + "\"");
      HoldsSplit(line, p, ItemText(x), TextOf(rest) + "\"");
      ItemReads(line, p, x);
      ItemsRead(line, p + |ItemText(x)|, rest, acc + ItemMeans(x));
      assert acc + ItemMeans(x) + MeaningOf(rest) == acc + (ItemMeans(x) + MeaningOf(rest));
    }
  }

  lemma {:induction false} ItemsOf(line: string, p: nat, acc: string) returns (items: seq<Item>)
    requires StrFrom(line, p, acc).Some?
    ensures ItemsOk(items) && Holds(line, p, TextOf(items) + "\"")
    ensures StrFrom(line, p, acc) == Some((acc + MeaningOf(items), p + |TextOf(items)| + 1))
    decreases |line| - p
  {
    hide ReadPiece, Holds, ItemText, ItemMeans, ItemOk;
    if At(line, p) == QUOTE {
      items := [];
      HoldsPart(line, p, p + 1);
      assert line[p..p + 1] == "\"" == "" + "\"" && acc + "" == acc;
    } else {
      var x := ItemRead(line, p);
      var rest := ItemsOf(line, p + |ItemText(x)|, acc + ItemMeans(x));
      items := [x] + rest;
      assert items[0] == x && items[1..] == rest;
      HoldsJoin(line, p, ItemText(x), TextOf(rest) + "\"");
      assert TextOf(items) + "\"" == ItemText(x) + (TextOf(rest) + "\"");
      assert acc + ItemMeans(x) + MeaningOf(rest) == acc + (ItemMeans(x) + MeaningOf(rest));
    }
  }

  /** A literal is read wherever it stands. */
  lemma SpellingReads(line: string, p: nat, t: string, v: string)
    requires Spells(t, v) && Holds(line, p, t)
    ensures At(line, p) == QUOTE && |t| >= 2 && Str(line, p) == Some((v, p + |t|))
  {
    hide StrFrom, Holds, TextOf, MeaningOf;
    var items :| ItemsOk(items) && t == Literal(items) && v == MeaningOf(items);
    HoldsSplit(line, p, "\"", TextOf(items) + "\"");
    HoldsFirst(line, p, "\"");
    ItemsRead(line, p + 1, items, "");
    assert "" + v == v;
  }

  /** What is read from p to q is v exactly when a literal of v stands there. */
  lemma StringsExactly(line: string, p: nat, v: string, q: nat)
    ensures Str(line, p) == Some((v, q)) <==> p <= q <= |line| && Spells(line[p..q], v)
  {
    hide StrFrom, Holds, TextOf, MeaningOf;
    if p <= q <= |line| && Spells(line[p..q], v) {
      HoldsPart(line, p, q);
      SpellingReads(line, p, line[p..q], v);
    }
    if Str(line, p) == Some((v, q)) {
      var items := ItemsOf(line, p + 1, "");
      assert "" + MeaningOf(items) == MeaningOf(items);
      HoldsPart(line, p, p + 1);
      assert line[p..p + 1] == "\"";
      HoldsJoin(line, p, "\"", TextOf(items) + "\"");
      HoldsIs(line, p, Literal(items));
    }
  }

  lemma HoldsIs(line: string, p: nat, t: string)
    requires Holds(line, p, t)
    ensures p + |t| <= |line| && line[p..p + |t|] == t
  {
  }

  /** What `jwrite` puts down is one of them. */
  lemma QuotedSpells(s: string)
    requires CString(s)
    ensures Spells(Quoted(s), s)
  {
    hide Str, Spells, Quoted;
    ReadQuoted("", s, "");
    assert "" + (Quoted(s) + "") == Quoted(s);
    StringsExactly(Quoted(s), 0, s, |Quoted(s)|);
    assert Quoted(s)[0..|Quoted(s)|] == Quoted(s);
  }

  /* ------------------------------------------------------------ messages and histories */

  datatype Role = System | User | Assistant

  datatype Message = Message(role: Role, content: string, reasoning: Option<string>)

  function RoleName(r: Role): string {
    match r case System => "system" case User => "user" case Assistant => "assistant"
  }

  function RoleId(s: string): Option<Role> {
    if s == "system" then Some(System) else if s == "user" then Some(User)
    else if s == "assistant" then Some(Assistant) else None
  }

  ghost predicate CMessage(m: Message) {
    CString(m.content) && (m.reasoning.Some? ==> CString(m.reasoning.value))
  }

  /** A system message may come first; then user and assistant take turns, user first; a user
      message has no reasoning. */
  ghost predicate ValidHistory(h: seq<Message>) {
    forall i :: 0 <= i < |h| ==> Belongs(h, i)
  }

  ghost predicate Belongs(h: seq<Message>, i: nat)
    requires i < |h|
  {
    if h[i].role == System then i == 0
    else h[i].role == (if (i - (if h[0].role == System then 1 else 0)) % 2 == 0 then User else Assistant)
         && (h[i].role == User ==> h[i].reasoning == None)
  }

  /** `k3_chat_history_validate`. */
  method Validate(h: seq<Message>) returns (ok: bool)
    ensures ok <==> ValidHistory(h)
  {
    var want := User;
    for i := 0 to |h|
      invariant forall j :: 0 <= j < i ==> Belongs(h, j)
      invariant want == if i == 0 || (i - (if h[0].role == System then 1 else 0)) % 2 == 0 then User else Assistant
    {
      ParityStep(i - (if h[0].role == System then 1 else 0));
      if h[i].role == System {
        if i != 0 {
          assert !Belongs(h, i);
          return false;
        }
        continue;
      }
      if h[i].role != want || (h[i].role != Assistant && h[i].reasoning.Some?) {
        assert !Belongs(h, i);
        return false;
      }
      want := if want == User then Assistant else User;
    }
    ok := true;
  }

  lemma ParityStep(x: int)
    ensures x % 2 == 0 <==> (x + 1) % 2 != 0
  {
  }

  /** `k3_chat_history_add`: append, unless that would break the history. */
  method Add(h: seq<Message>, m: Message) returns (ok: bool, h': seq<Message>)
    ensures ok <==> ValidHistory(h + [m]) && (m.role != Assistant ==> m.reasoning == None)
    ensures h' == if ok then h + [m] else h
  {
    ok, h' := false, h;
    if m.role != Assistant && m.reasoning.Some? { return; }
    var valid := Validate(h + [m]);
    if valid { ok, h' := true, h + [m]; }
  }

  /** `k3_chat_history_reset`: nothing but the system message stays. */
  method Reset(h: seq<Message>) returns (ok: bool, h': seq<Message>)
    requires ValidHistory(h)
    ensures ok && ValidHistory(h')
    ensures h' == if h != [] && h[0].role == System then [Message(System, h[0].content, None)] else []
  {
    ok, h' := true, [];
    if h != [] && h[0].role == System {
      ok, h' := Add([], Message(System, h[0].content, None));
      assert [] + [Message(System, h[0].content, None)] == [Message(System, h[0].content, None)];
    }
  }

  /* ------------------------------------------------------------ one record */

  /** One line as `k3_chat_history_save` writes it. */
  function Record(m: Message): string
    requires CMessage(m)
  {
    "{\"" + ROLE + "\":" + Quoted(RoleName(m.role)) + ",\"" + CONTENT + "\":" + Quoted(m.content)
    + (if m.role == Assistant && m.reasoning.Some? then ",\"" + REASONING + "\":" + Quoted(m.reasoning.value)
      else "") + "}"
  }

  predicate IsWs(c: char) {
    c == ' ' || c == '\t' || c == '\r'
  }

  function Ws(line: string, p: nat): (q: nat)
    ensures q >= p && !IsWs(At(line, q))
    decreases |line| - p
  {
    if IsWs(At(line, p)) then Ws(line, p + 1) else p
  }

  datatype Fields = Fields(role: Option<string>, content: Option<string>, reasoning: Option<string>)

  /** A field not seen before; anything else is refused. */
  function Put(f: Fields, key: string, value: string): Option<Fields> {
    if key == ROLE && f.role.None? then Some(f.(role := Some(value)))
    else if key == CONTENT && f.content.None? then Some(f.(content := Some(value)))
    else if key == REASONING && f.reasoning.None? then Some(f.(reasoning := Some(value)))
    else None
  }

  /** One key, colon and value from p on: the fields after it and where it ends. */
  function ReadField(line: string, p: nat, f: Fields): (r: Option<(Fields, nat)>)
    ensures r.Some? ==> r.value.1 > p && !IsWs(At(line, r.value.1))
  {
    match Str(line, p)
    case None => None
    case Some(key) =>
      if At(line, Ws(line, key.1)) != ':' then None
      else match Str(line, Ws(line, Ws(line, key.1) + 1))
        case None => None
        case Some(value) =>
          match Put(f, key.0, value.0)
          case None => None
          case Some(g) => Some((g, Ws(line, value.1)))
  }

  /** The members of an object from p on, up to and past its closing brace. */
  function FieldsFrom(line: string, p: nat, f: Fields): Option<(Fields, nat)>
    decreases |line| - p
  {
    var p1 := Ws(line, p);
    if At(line, p1) == '}' then Some((f, p1 + 1))
    else if At(line, p1) == NUL then None
    else match ReadField(line, p1, f)
      case None => None
      case Some(x) =>
        if At(line, x.1) == ',' then FieldsFrom(line, x.1 + 1, x.0)
        else if At(line, x.1) == '}' then Some((x.0, x.1 + 1))
        else None
  }

  function Assemble(f: Fields): Option<Message> {
    match (f.role, f.content)
    case (Some(name), Some(content)) =>
      (match RoleId(name)
       case None => None
       case Some(r) => if r != Assistant && f.reasoning.Some? then None else Some(Message(r, content, f.reasoning)))
    case _ => None
  }

  function Parse(line: string): Option<Message> {
    var p := Ws(line, 0);
    if At(line, p) != '{' then None
    else match FieldsFrom(line, p + 1, Fields(None, None, None))
      case None => None
      case Some(x) => if At(line, Ws(line, x.1)) != NUL then None else Assemble(x.0)
  }

  lemma AtInside(line: string, p: nat)
    ensures At(line, p) != NUL ==> p < |line| && line[p] == At(line, p)
  {
  }

  method SkipWs(line: string, p: nat) returns (q: nat)
    ensures q == Ws(line, p)
  {
    q := p;
    while At(line, q) == ' ' || At(line, q) == '\t' || At(line, q) == '\r'
      invariant Ws(line, p) == Ws(line, q)
      decreases |line| - q
    {
      q := q + 1;
    }
  }

  /** `parse_record`; ParsesExactly says what it accepts. */
  method ParseRecord(line: string) returns (m: Option<Message>)
    ensures m == Parse(line)
  {
    hide Str, Ws, Put, At, ReadField, Assemble;
    var p := SkipWs(line, 0);
    if At(line, p) != '{' { return None; }
    p := p + 1;
    var f := Fields(None, None, None);
    ghost var start := p;
    while true
      invariant FieldsFrom(line, start, Fields(None, None, None)) == FieldsFrom(line, p, f)
      decreases |line| - p
    {
      p := SkipWs(line, p);
      AtInside(line, p);
      if At(line, p) == '}' { p := p + 1; break; }
      if At(line, p) == NUL { return None; }
      var x := Field(line, p, f);
      if x.None? { return None; }
      f, p := x.value.0, x.value.1;
      if At(line, p) == ',' { p := p + 1; continue; }
      if At(line, p) == '}' { p := p + 1; break; }
      return None;
    }
    p := SkipWs(line, p);
    if At(line, p) != NUL { return None; }
    m := Assemble(f);
  }

  method Field(line: string, p: nat, f: Fields) returns (r: Option<(Fields, nat)>)
    ensures r == ReadField(line, p, f)
  {
    hide Str, Ws, Put;
    var key := JStr(line, p);
    if key.None? { return None; }
    var q := SkipWs(line, key.value.1);
    if At(line, q) != ':' { return None; }
    q := SkipWs(line, q + 1);
    var value := JStr(line, q);
    if value.None? { return None; }
    var g := Put(f, key.value.0, value.value.0);
    if g.None? { return None; }
    q := SkipWs(line, value.value.1);
    r := Some((g.value, q));
  }

  /* ------------------------------------------------------------ a record is read back */

  function FieldText(key: string, value: string): string
    requires CString(key) && CString(value)
  {
    Quoted(key) + ":" + Quoted(value)
  }

  lemma {:induction false} PlainBody(s: string)
    requires forall i :: 0 <= i < |s| ==> ' ' <= s[i] && s[i] as int < 256 && s[i] != QUOTE && s[i] != '\\'
    ensures Body(s) == s
  {
    if s != "" {
      PlainBody(s[1..]);
      assert Esc(s[0]) == [s[0]] && s == [s[0]] + s[1..];
    }
  }

  lemma HeldQuoted(line: string, p: nat, s: string)
    requires CString(s) && Holds(line, p, Quoted(s))
    ensures Str(line, p) == Some((s, p + |Quoted(s)|)) && At(line, p) == QUOTE
  {
    hide Str, Body;
    ReadQuoted(line[..p], s, line[p + |Quoted(s)|..]);
    assert line == line[..p] + (Quoted(s) + line[p + |Quoted(s)|..]);
    HoldsFirst(line, p, Quoted(s));
  }

  /** The field at p is read, up to the character that follows it. */
  lemma FieldReads(line: string, p: nat, key: string, value: string, f: Fields, g: Fields)
    requires CString(key) && CString(value) && Put(f, key, value) == Some(g)
    requires Holds(line, p, FieldText(key, value)) && !IsWs(At(line, p + |FieldText(key, value)|))
    ensures At(line, p) == QUOTE && Ws(line, p) == p
    ensures ReadField(line, p, f) == Some((g, p + |FieldText(key, value)|))
  {
    hide Str, Put, Quoted, Holds, At, CString;
    HoldsSplit(line, p, Quoted(key) + ":", Quoted(value));
    HoldsSplit(line, p, Quoted(key), ":");
    HeldQuoted(line, p, key);
    HoldsFirst(line, p + |Quoted(key)|, ":");
    HeldQuoted(line, p + |Quoted(key)| + 1, value);
  }

  lemma FieldThenComma(line: string, p: nat, key: string, value: string, f: Fields, g: Fields)
    requires CString(key) && CString(value) && Put(f, key, value) == Some(g)
    requires Holds(line, p, FieldText(key, value)) && At(line, p + |FieldText(key, value)|) == ','
    ensures FieldsFrom(line, p, f) == FieldsFrom(line, p + |FieldText(key, value)| + 1, g)
  {
    hide ReadField, Put, FieldText, Holds, At, CString;
    FieldReads(line, p, key, value, f, g);
  }

  lemma FieldThenBrace(line: string, p: nat, key: string, value: string, f: Fields, g: Fields)
    requires CString(key) && CString(value) && Put(f, key, value) == Some(g)
    requires Holds(line, p, FieldText(key, value)) && At(line, p + |FieldText(key, value)|) == '}'
    ensures FieldsFrom(line, p, f) == Some((g, p + |FieldText(key, value)| + 1))
  {
    hide ReadField, Put, FieldText, Holds, At, CString;
    FieldReads(line, p, key, value, f, g);
  }

  ghost predicate Plain(s: string) {
    forall i :: 0 <= i < |s| ==> ' ' <= s[i] && s[i] as int < 256 && s[i] != QUOTE && s[i] != '\\'
  }

  lemma PlainQuoted(s: string)
    requires Plain(s)
    ensures CString(s) && Quoted(s) == "\"" + s + "\""
  {
    PlainBody(s);
  }

  lemma RoleIsPlain(r: Role)
    ensures CString(RoleName(r)) && RoleId(RoleName(r)) == Some(r)
  {
    PlainQuoted(RoleName(r));
  }

  lemma KeysArePlain()
    ensures CString(ROLE) && CString(CONTENT) && CString(REASONING)
    ensures Quoted(ROLE) == "\"" + ROLE + "\"" && Quoted(CONTENT) == "\"" + CONTENT + "\""
            && Quoted(REASONING) == "\"" + REASONING + "\""
  {
    hide Quoted, CString;
    PlainQuoted(ROLE);
    PlainQuoted(CONTENT);
    PlainQuoted(REASONING);
  }

  lemma PutRole(f: Fields, v: string)
    requires f.role.None?
    ensures Put(f, ROLE, v) == Some(f.(role := Some(v)))
  {
  }

  lemma PutContent(f: Fields, v: string)
    requires f.content.None?
    ensures Put(f, CONTENT, v) == Some(f.(content := Some(v)))
  {
    assert |CONTENT| != |ROLE|;
  }

  lemma PutReasoning(f: Fields, v: string)
    requires f.reasoning.None?
    ensures Put(f, REASONING, v) == Some(f.(reasoning := Some(v)))
  {
    assert |REASONING| != |ROLE| && |REASONING| != |CONTENT|;
  }

  /** What the file keeps of a message: reasoning is written for the assistant only. */
  function Kept(m: Message): Message {
    if m.role == Assistant then m else m.(reasoning := None)
  }

  /** The end of a record, after the content. */
  function RecordEnd(m: Message): string
    requires CMessage(m) && CString(REASONING)
  {
    if Kept(m).reasoning.Some? then "," + (FieldText(REASONING, m.reasoning.value) + "}") else "}"
  }

  lemma RecordFields(m: Message)
    requires CMessage(m)
    ensures CString(RoleName(m.role)) && CString(ROLE) && CString(CONTENT) && CString(REASONING)
    ensures Record(m) == "{" + (FieldText(ROLE, RoleName(m.role))
            + ("," + (FieldText(CONTENT, m.content) + RecordEnd(m))))
  {
    RoleIsPlain(m.role);
    KeysArePlain();
    hide Quoted, CString, RoleName, ROLE, CONTENT, REASONING;
    Regroup(ROLE, Quoted(RoleName(m.role)), CONTENT, Quoted(m.content), RecordEnd(m));
    if Kept(m).reasoning.Some? { RegroupEnd(REASONING, Quoted(m.reasoning.value)); }
  }

  lemma Regroup(k1: string, v1: string, k2: string, v2: string, end: string)
    ensures "{" + (("\"" + k1 + "\"" + ":" + v1) + ("," + (("\"" + k2 + "\"" + ":" + v2) + end)))
         == "{\"" + k1 + "\":" + v1 + ",\"" + k2 + "\":" + v2 + end
  {
  }

  lemma RegroupEnd(k: string, v: string)
    ensures "," + (("\"" + k + "\"" + ":" + v) + "}") == (",\"" + k + "\":" + v) + "}"
  {
  }

  /** Where the parts of a record stand. */
  lemma RecordNests(m: Message)
    requires CMessage(m)
    ensures CString(RoleName(m.role)) && CString(m.content) && CString(ROLE) && CString(CONTENT) && CString(REASONING)
    ensures var line, a, b := Record(m), FieldText(ROLE, RoleName(m.role)), FieldText(CONTENT, m.content);
            && |line| == 2 + |a| + |b| + |RecordEnd(m)| && At(line, 0) == '{' && At(line, 1 + |a|) == ','
            && Holds(line, 1, a) && Holds(line, 2 + |a|, b) && Holds(line, 2 + |a| + |b|, RecordEnd(m))
  {
    hide FieldText, Record, CString, RecordEnd, RoleName, Holds, At, ROLE, CONTENT, REASONING;
    RecordFields(m);
    Nested(Record(m), FieldText(ROLE, RoleName(m.role)), FieldText(CONTENT, m.content), RecordEnd(m));
  }

  lemma FieldsOfRecord(m: Message)
    requires CMessage(m)
    ensures At(Record(m), 0) == '{'
    ensures FieldsFrom(Record(m), 1, Fields(None, None, None))
         == Some((Fields(Some(RoleName(m.role)), Some(m.content), Kept(m).reasoning), |Record(m)|))
  {
    hide FieldText, FieldsFrom, Record, CMessage, CString, RecordEnd, RoleName, Holds, Put, At, ROLE, CONTENT,
      REASONING;
    RecordNests(m);
    var line, name := Record(m), RoleName(m.role);
    var ft1 := FieldText(ROLE, name);
    var f1 := Fields(Some(name), None, None);
    PutRole(Fields(None, None, None), name);
    FieldThenComma(line, 1, ROLE, name, Fields(None, None, None), f1);
    EndReads(m, line, 2 + |ft1|, f1);
  }

  /** A written record parses to the message it was written from, as far as it was written. */
  lemma ParseOfRecord(m: Message)
    requires CMessage(m)
    ensures Parse(Record(m)) == Some(Kept(m))
  {
    hide FieldsFrom, Record, CString, RoleName, RoleId;
    RoleIsPlain(m.role);
    FieldsOfRecord(m);
    assert At(Record(m), |Record(m)|) == NUL;
  }

  lemma Nested(line: string, a: string, b: string, c: string)
    requires line == "{" + (a + ("," + (b + c)))
    ensures |line| == 2 + |a| + |b| + |c| && At(line, 0) == '{' && At(line, 1 + |a|) == ','
    ensures Holds(line, 1, a) && Holds(line, 2 + |a|, b) && Holds(line, 2 + |a| + |b|, c)
  {
    hide Holds;
    HoldsAll(line);
    HoldsSplit(line, 0, "{", a + ("," + (b + c)));
    HoldsSplit(line, 1, a, "," + (b + c));
    HoldsSplit(line, 1 + |a|, ",", b + c);
    HoldsSplit(line, 2 + |a|, b, c);
  }

  lemma HoldsAll(line: string)
    ensures Holds(line, 0, line)
  {
  }

  /** The content and what follows it, to the end of the line. */
  lemma EndReads(m: Message, line: string, p: nat, f: Fields)
    requires CMessage(m) && CString(CONTENT) && CString(REASONING) && f.content.None? && f.reasoning.None?
    requires Holds(line, p, FieldText(CONTENT, m.content))
             && Holds(line, p + |FieldText(CONTENT, m.content)|, RecordEnd(m))
    requires p + |FieldText(CONTENT, m.content)| + |RecordEnd(m)| == |line|
    ensures FieldsFrom(line, p, f) == Some((Fields(f.role, Some(m.content), Kept(m).reasoning), |line|))
  {
    hide FieldText, FieldsFrom, CString, Holds, Put, At, CONTENT, REASONING;
    var g, q := f.(content := Some(m.content)), p + |FieldText(CONTENT, m.content)|;
    PutContent(f, m.content);
    HoldsFirst(line, q, RecordEnd(m));
    if Kept(m).reasoning.None? {
      FieldThenBrace(line, p, CONTENT, m.content, f, g);
    } else {
      var ft := FieldText(REASONING, m.reasoning.value);
      FieldThenComma(line, p, CONTENT, m.content, f, g);
      HoldsSplit(line, q, ",", ft + "}");
      HoldsSplit(line, q + 1, ft, "}");
      HoldsFirst(line, q + 1 + |ft|, "}");
      PutReasoning(g, m.reasoning.value);
      FieldThenBrace(line, q + 1, REASONING, m.reasoning.value, g, g.(reasoning := m.reasoning));
    }
  }

  /* ------------------------------------------------------------ fields in any order */

  /** A field: a key and a value as spelt, and the white space around them. */
  datatype Spaced = Spaced(w0: string, kt: string, key: string, w1: string, w2: string, vt: string, value: string,
                           w3: string)

  ghost predicate Blank(w: string) {
    forall i :: 0 <= i < |w| ==> w[i] == ' ' || w[i] == '\t' || w[i] == '\r'
  }

  ghost predicate SpacedOk(x: Spaced) {
    Blank(x.w0) && Blank(x.w1) && Blank(x.w2) && Blank(x.w3) && Spells(x.kt, x.key) && Spells(x.vt, x.value)
  }

  function SpacedText(x: Spaced): string {
    x.w0 + (x.kt + (x.w1 + (":" + (x.w2 + (x.vt + x.w3)))))
  }

  /** Fields with commas between them, and the brace that ends the object; with a tail another
      comma, if there are fields, and the tail stand before the brace. */
  function ObjectText(xs: seq<Spaced>, tail: Option<string>): string
    decreases |xs|
  {
    if xs == [] then (if tail.Some? then tail.value else "") + "}"
    else SpacedText(xs[0]) + if |xs| == 1 && tail.None? then "}" else "," + ObjectText(xs[1..], tail)
  }

  ghost predicate ObjectOk(xs: seq<Spaced>, tail: Option<string>) {
    (tail.Some? ==> Blank(tail.value)) && forall i :: 0 <= i < |xs| ==> SpacedOk(xs[i])
  }

  function PutAll(f: Fields, xs: seq<Spaced>): Option<Fields>
    decreases |xs|
  {
    if xs == [] then Some(f)
    else match Put(f, xs[0].key, xs[0].value)
      case None => None
      case Some(g) => PutAll(g, xs[1..])
  }

  lemma {:induction false} WsPast(line: string, p: nat, w: string)
    requires Blank(w) && Holds(line, p, w) && !IsWs(At(line, p + |w|))
    ensures Ws(line, p) == p + |w|
    decreases |w|
  {
    if w != "" {
      HoldsFirst(line, p, w);
      assert w == w[..1] + w[1..];
      HoldsSplit(line, p, w[..1], w[1..]);
      WsPast(line, p + 1, w[1..]);
    }
  }

  /** Where the parts of a spaced field stand. */
  lemma SpacedParts(line: string, p: nat, x: Spaced)
    requires Holds(line, p, SpacedText(x))
    ensures var a, b := p + |x.w0|, p + |x.w0| + |x.kt| + |x.w1|;
            && Holds(line, p, x.w0) && Holds(line, a, x.kt) && Holds(line, a + |x.kt|, x.w1)
            && Holds(line, b, ":") && Holds(line, b + 1, x.w2) && Holds(line, b + 1 + |x.w2|, x.vt)
            && Holds(line, b + 1 + |x.w2| + |x.vt|, x.w3)
            && p + |SpacedText(x)| == b + 1 + |x.w2| + |x.vt| + |x.w3|
  {
    hide Holds;
    var b, value := p + |x.w0| + |x.kt| + |x.w1|, x.w2 + (x.vt + x.w3);
    ThreeParts(line, p, x.w0, x.kt, x.w1 + (":" + value));
    ThreeParts(line, p + |x.w0| + |x.kt|, x.w1, ":", value);
    ThreeParts(line, b + 1, x.w2, x.vt, x.w3);
  }

  lemma ThreeParts(line: string, p: nat, a: string, b: string, c: string)
    requires Holds(line, p, a + (b + c))
    ensures Holds(line, p, a) && Holds(line, p + |a|, b) && Holds(line, p + |a| + |b|, c)
  {
    hide Holds;
    HoldsSplit(line, p, a, b + c);
    HoldsSplit(line, p + |a|, b, c);
  }

  lemma NoBlank()
    ensures Blank("")
  {
  }

  lemma SpacedReads(line: string, p: nat, x: Spaced, f: Fields)
    requires SpacedOk(x) && Holds(line, p, SpacedText(x)) && !IsWs(At(line, p + |SpacedText(x)|))
    ensures At(line, Ws(line, p)) == QUOTE
    ensures ReadField(line, Ws(line, p), f)
         == match Put(f, x.key, x.value) case None => None case Some(g) => Some((g, p + |SpacedText(x)|))
  {
    hide Ws, Str, Spells, Holds, At, Blank, SpacedText, Put;
    SpacedParts(line, p, x);
    var k, v := x.kt, x.vt;
    var a, b := p + |x.w0|, p + |x.w0| + |k| + |x.w1|;
    SpellingReads(line, a, k, x.key);
    SpellingReads(line, b + 1 + |x.w2|, v, x.value);
    HoldsFirst(line, b, ":");
    WsPast(line, p, x.w0);
    WsPast(line, a + |k|, x.w1);
    WsPast(line, b + 1, x.w2);
    WsPast(line, b + 1 + |x.w2| + |v|, x.w3);
  }

  /** The members of an object are put one after the other. */
  lemma {:induction false} FieldsRead(line: string, p: nat, xs: seq<Spaced>, tail: Option<string>, f: Fields)
    requires ObjectOk(xs, tail) && Holds(line, p, ObjectText(xs, tail))
    ensures FieldsFrom(line, p, f)
         == match PutAll(f, xs) case None => None case Some(g) => Some((g, p + |ObjectText(xs, tail)|))
    decreases |xs|
  {
    hide Ws, Holds, At, SpacedText, SpacedOk, Put, ReadField, Blank, ObjectText, FieldsFrom, PutAll;
    FieldsOne(line, p, f);
    if xs == [] {
      NoField(f, tail);
      var w := if tail.Some? then tail.value else "";
      HoldsSplit(line, p, w, "}");
      HoldsFirst(line, p + |w|, "}");
      NoBlank();
      WsPast(line, p, w);
    } else {
      var x, last := xs[0], |xs| == 1 && tail.None?;
      OneField(f, xs);
      FirstField(line, p, xs, tail);
      SpacedReads(line, p, x, f);
      if !last && Put(f, x.key, x.value).Some? {
        FieldsRead(line, p + |SpacedText(x)| + 1, xs[1..], tail, Put(f, x.key, x.value).value);
      }
    }
  }

  /** The first field, what follows it, and the rest. */
  lemma FirstField(line: string, p: nat, xs: seq<Spaced>, tail: Option<string>)
    requires xs != [] && Holds(line, p, ObjectText(xs, tail))
    ensures var q, last := p + |SpacedText(xs[0])|, |xs| == 1 && tail.None?;
            && Holds(line, p, SpacedText(xs[0])) && At(line, q) == (if last then '}' else ',') && !IsWs(At(line, q))
            && (!last ==> Holds(line, q + 1, ObjectText(xs[1..], tail)))
            && p + |ObjectText(xs, tail)| == q + 1 + if last then 0 else |ObjectText(xs[1..], tail)|
  {
    hide Holds, At, SpacedText, ObjectText;
    var t, last := SpacedText(xs[0]), |xs| == 1 && tail.None?;
    var rest := if last then "}" else "," + ObjectText(xs[1..], tail);
    ObjectFirst(xs, tail);
    HoldsSplit(line, p, t, rest);
    HoldsFirst(line, p + |t|, rest);
    if !last { HoldsSplit(line, p + |t|, ",", ObjectText(xs[1..], tail)); }
  }

  lemma ObjectFirst(xs: seq<Spaced>, tail: Option<string>)
    requires xs != []
    ensures ObjectText(xs, tail)
         == SpacedText(xs[0]) + if |xs| == 1 && tail.None? then "}" else "," + ObjectText(xs[1..], tail)
  {
  }

  lemma FieldsOne(line: string, p: nat, f: Fields)
    ensures var p1 := Ws(line, p);
            && (At(line, p1) == '}' ==> FieldsFrom(line, p, f) == Some((f, p1 + 1)))
            && (At(line, p1) == QUOTE ==> FieldsFrom(line, p, f) == match ReadField(line, p1, f) case None => None
                 case Some(x) => if At(line, x.1) == ',' then FieldsFrom(line, x.1 + 1, x.0)
                                 else if At(line, x.1) == '}' then Some((x.0, x.1 + 1)) else None)
  {
    hide Ws, At, ReadField;
  }

  lemma NoField(f: Fields, tail: Option<string>)
    ensures PutAll(f, []) == Some(f) && ObjectText([], tail) == (if tail.Some? then tail.value else "") + "}"
  {
  }

  lemma OneField(f: Fields, xs: seq<Spaced>)
    requires xs != []
    ensures PutAll(f, xs)
         == match Put(f, xs[0].key, xs[0].value) case None => None case Some(g) => PutAll(g, xs[1..])
    ensures |xs| == 1 ==> PutAll(f, xs) == Put(f, xs[0].key, xs[0].value)
  {
    hide Put;
    if |xs| == 1 { assert xs[1..] == []; }
  }

  /** The white space from p on. */
  lemma {:induction false} WsWas(line: string, p: nat)
    requires p <= |line|
    ensures Ws(line, p) <= |line| && Blank(line[p..Ws(line, p)])
    decreases |line| - p
  {
    if IsWs(At(line, p)) {
      WsWas(line, p + 1);
      assert line[p..Ws(line, p)] == [line[p]] + line[p + 1..Ws(line, p)];
    }
  }

  lemma FieldWas(line: string, p: nat, f: Fields) returns (x: Spaced)
    requires p <= |line| && ReadField(line, Ws(line, p), f).Some?
    ensures SpacedOk(x) && Holds(line, p, SpacedText(x)) && Put(f, x.key, x.value).Some?
    ensures ReadField(line, Ws(line, p), f) == Some((Put(f, x.key, x.value).value, p + |SpacedText(x)|))
  {
    hide Ws, Str, Spells, Holds, At, Blank, SpacedText, Put;
    var a := Ws(line, p);
    var key := Str(line, a).value;
    StringsExactly(line, a, key.0, key.1);
    var b := Ws(line, key.1);
    AtInside(line, b);
    var c := Ws(line, b + 1);
    var value := Str(line, c).value;
    StringsExactly(line, c, value.0, value.1);
    var d := Ws(line, value.1);
    WsWas(line, p);
    WsWas(line, key.1);
    WsWas(line, b + 1);
    WsWas(line, value.1);
    x := Spaced(line[p..a], line[a..key.1], key.0, line[key.1..b], line[b + 1..c], line[c..value.1], value.0,
      line[value.1..d]);
    SevenParts(line, p, a, key.1, b, c, value.1, d);
    SpacedIs(line, p, d, x);
  }

  lemma SpacedIs(line: string, p: nat, q: nat, x: Spaced)
    requires p <= q <= |line| && line[p..q] == x.w0 + (x.kt + (x.w1 + (":" + (x.w2 + (x.vt + x.w3)))))
    ensures Holds(line, p, SpacedText(x)) && q == p + |SpacedText(x)|
  {
  }

  lemma SevenParts(line: string, p: nat, a: nat, k: nat, b: nat, c: nat, v: nat, d: nat)
    requires p <= a <= k <= b < |line| && b + 1 <= c <= v <= d <= |line| && line[b] == ':'
    ensures line[p..d] == line[p..a] + (line[a..k]
            + (line[k..b] + (":" + (line[b + 1..c] + (line[c..v] + line[v..d])))))
  {
    assert line[c..d] == line[c..v] + line[v..d];
    assert line[b + 1..d] == line[b + 1..c] + line[c..d];
    assert line[b..d] == ":" + line[b + 1..d];
    assert line[k..d] == line[k..b] + line[b..d];
    assert line[a..d] == line[a..k] + line[k..d];
    assert line[p..d] == line[p..a] + line[a..d];
  }

  /** Whatever is read as the members of an object is such a text. */
  lemma {:induction false} FieldsWere(line: string, p: nat, f: Fields) returns (xs: seq<Spaced>, tail: Option<string>)
    requires p <= |line| && FieldsFrom(line, p, f).Some?
    ensures ObjectOk(xs, tail) && Holds(line, p, ObjectText(xs, tail)) && PutAll(f, xs).Some?
    ensures FieldsFrom(line, p, f) == Some((PutAll(f, xs).value, p + |ObjectText(xs, tail)|))
    ensures xs != [] || tail.Some?
    decreases |line| - p
  {
    hide Ws, Holds, SpacedText, SpacedOk, Put, ReadField, Blank, At, ObjectText, PutAll;
    WsWas(line, p);
    var p1 := Ws(line, p);
    if At(line, p1) == '}' {
      xs, tail := [], Some(line[p..p1]);
      HoldsPart(line, p, p1);
      BraceAt(line, p1, "}");
      HoldsJoin(line, p, line[p..p1], "}");
      NothingPut(f, line[p..p1]);
    } else {
      var x := FieldWas(line, p, f);
      var g, q := Put(f, x.key, x.value).value, p + |SpacedText(x)|;
      if At(line, q) == ',' {
        BraceAt(line, q, ",");
        HoldsIs(line, q, ",");
        var ys;
        ys, tail := FieldsWere(line, q + 1, g);
        xs := [x] + ys;
        OneMorePut(f, g, x, ys, tail);
        HoldsJoin(line, q, ",", ObjectText(ys, tail));
        HoldsJoin(line, p, SpacedText(x), "," + ObjectText(ys, tail));
      } else {
        xs, tail := [x], None;
        LastPut(f, x);
        BraceAt(line, q, "}");
        HoldsJoin(line, p, SpacedText(x), "}");
      }
    }
  }

  lemma NothingPut(f: Fields, w: string)
    ensures PutAll(f, []) == Some(f) && ObjectText([], Some(w)) == w + "}"
  {
  }

  lemma OneMorePut(f: Fields, g: Fields, x: Spaced, ys: seq<Spaced>, tail: Option<string>)
    requires Put(f, x.key, x.value) == Some(g) && (ys != [] || tail.Some?)
    ensures PutAll(f, [x] + ys) == PutAll(g, ys)
    ensures ObjectText([x] + ys, tail) == SpacedText(x) + ("," + ObjectText(ys, tail))
  {
    hide Put, SpacedText;
    assert ([x] + ys)[1..] == ys;
  }

  lemma LastPut(f: Fields, x: Spaced)
    ensures PutAll(f, [x]) == Put(f, x.key, x.value) && ObjectText([x], None) == SpacedText(x) + "}"
  {
    hide Put, SpacedText;
    assert [x][1..] == [];
  }

  lemma BraceAt(line: string, p: nat, c: string)
    requires |c| == 1 && At(line, p) == c[0] && c[0] != NUL
    ensures Holds(line, p, c)
  {
    assert line[p..p + 1] == [line[p]];
  }

  /** The line is an object of these fields, alone in it but for white space; what stands behind
      a NUL is no part of the line. */
  ghost predicate Written(line: string, w: string, xs: seq<Spaced>, tail: Option<string>, w': string, rest: string) {
    && Blank(w) && Blank(w') && ObjectOk(xs, tail) && At(rest, 0) == NUL
    && line == w + ("{" + (ObjectText(xs, tail) + (w' + rest)))
  }

  /** A line is the message its fields make, whatever their order, their spelling and the white
      space. */
  lemma ParseOfFields(line: string, w: string, xs: seq<Spaced>, tail: Option<string>, w': string, rest: string)
    requires Written(line, w, xs, tail, w', rest)
    ensures Parse(line) == match PutAll(Fields(None, None, None), xs) case None => None case Some(f) => Assemble(f)
  {
    hide Ws, Holds, At, ObjectText, ObjectOk, FieldsFrom, Blank, PutAll, Assemble;
    var p := |w| + 1 + |ObjectText(xs, tail)|;
    WrittenParts(line, w, xs, tail, w', rest);
    HoldsFirst(line, |w|, "{");
    WsPast(line, 0, w);
    WsPast(line, p, w');
    FieldsRead(line, |w| + 1, xs, tail, Fields(None, None, None));
  }

  lemma WrittenParts(line: string, w: string, xs: seq<Spaced>, tail: Option<string>, w': string, rest: string)
    requires Written(line, w, xs, tail, w', rest)
    ensures var p := |w| + 1 + |ObjectText(xs, tail)|;
            && Holds(line, 0, w) && Holds(line, |w|, "{") && Holds(line, |w| + 1, ObjectText(xs, tail))
            && Holds(line, p, w') && At(line, p + |w'|) == NUL
  {
    hide Holds, ObjectText, ObjectOk, Blank, At;
    var o := ObjectText(xs, tail);
    HoldsAll(line);
    ThreeParts(line, 0, w, "{", o + (w' + rest));
    ThreeParts(line, |w| + 1, o, w', rest);
    EndsHere(line, |w| + 1 + |o| + |w'|, rest);
  }

  lemma EndsHere(line: string, p: nat, rest: string)
    requires Holds(line, p, rest) && p + |rest| == |line| && At(rest, 0) == NUL
    ensures At(line, p) == NUL
  {
    if rest != "" { HoldsFirst(line, p, rest); }
  }

  /** The fields, no key twice and none unknown, are those of the message. */
  ghost predicate Makes(xs: seq<Spaced>, m: Message) {
    && Distinct(xs) && Value(xs, ROLE) == Some(RoleName(m.role)) && Value(xs, CONTENT) == Some(m.content)
    && Value(xs, REASONING) == m.reasoning && (m.reasoning.Some? ==> m.role == Assistant)
  }

  lemma MakesIs(xs: seq<Spaced>, m: Message)
    ensures Makes(xs, m) <==> match PutAll(Fields(None, None, None), xs) case None => false
            case Some(f) => Assemble(f) == Some(m)
  {
    hide Distinct, Value, PutAll, ROLE, CONTENT, REASONING;
    PutAllIs(Fields(None, None, None), xs);
    RoleNames(m.role);
    if PutAll(Fields(None, None, None), xs).Some? {
      var f := PutAll(Fields(None, None, None), xs).value;
      if f.role.Some? { RoleIds(f.role.value, m.role); }
    }
  }

  lemma RoleNames(r: Role)
    ensures RoleId(RoleName(r)) == Some(r)
  {
  }

  lemma RoleIds(s: string, r: Role)
    ensures RoleId(s) == Some(r) <==> s == RoleName(r)
  {
  }

  /** `parse_record` takes exactly the JSON objects of the known fields, none twice, with string
      values, the role one of the three, and reasoning for the assistant only; one comma too
      many before the brace is let pass. */
  lemma ParsesExactly(line: string, m: Message)
    ensures Parse(line) == Some(m) <==> exists w, xs, tail, w', rest ::
              Written(line, w, xs, tail, w', rest) && Makes(xs, m)
  {
    hide Written, Makes, Parse, PutAll, Assemble;
    if w, xs, tail, w', rest :| Written(line, w, xs, tail, w', rest) && Makes(xs, m) {
      ParseOfFields(line, w, xs, tail, w', rest);
      MakesIs(xs, m);
    }
    if Parse(line) == Some(m) {
      var w, xs, tail, w', rest := RecordWas(line, m);
      MakesIs(xs, m);
    }
  }

  lemma RecordWas(line: string, m: Message)
      returns (w: string, xs: seq<Spaced>, tail: Option<string>, w': string, rest: string)
    requires Parse(line) == Some(m)
    ensures Written(line, w, xs, tail, w', rest)
    ensures PutAll(Fields(None, None, None), xs).Some?
            && Assemble(PutAll(Fields(None, None, None), xs).value) == Some(m)
  {
    hide Ws, At, Holds, ObjectText, ObjectOk, FieldsFrom, Blank, PutAll, Assemble, Written;
    var p := Ws(line, 0);
    WsWas(line, 0);
    AtInside(line, p);
    xs, tail := FieldsWere(line, p + 1, Fields(None, None, None));
    var q := p + 1 + |ObjectText(xs, tail)|;
    HoldsIs(line, p + 1, ObjectText(xs, tail));
    WsWas(line, q);
    w, w', rest := line[0..p], line[q..Ws(line, q)], line[Ws(line, q)..];
    WrittenIs(line, p, q, Ws(line, q), xs, tail);
  }

  lemma WrittenIs(line: string, p: nat, q: nat, r: nat, xs: seq<Spaced>, tail: Option<string>)
    requires p < q <= r <= |line| && line[p] == '{' && At(line, r) == NUL && line[p + 1..q] == ObjectText(xs, tail)
    requires Blank(line[0..p]) && Blank(line[q..r]) && ObjectOk(xs, tail)
    ensures Written(line, line[0..p], xs, tail, line[q..r], line[r..])
  {
    hide ObjectText, ObjectOk, Blank;
    assert line[0..p] == line[..p];
    WholeLine(line, p, q, r);
  }

  lemma WholeLine(line: string, p: nat, q: nat, r: nat)
    requires p < q <= r <= |line| && line[p] == '{'
    ensures line == line[..p] + ("{" + (line[p + 1..q] + (line[q..r] + line[r..])))
  {
    assert line[q..] == line[q..r] + line[r..];
    assert line[p + 1..] == line[p + 1..q] + line[q..];
    assert line[p..] == "{" + line[p + 1..];
  }

  /** The known keys, each at most once. */
  ghost predicate Distinct(xs: seq<Spaced>) {
    && (forall i :: 0 <= i < |xs| ==> xs[i].key == ROLE || xs[i].key == CONTENT || xs[i].key == REASONING)
    && (forall i, j :: 0 <= i < j < |xs| ==> xs[i].key != xs[j].key)
  }

  /** The value of the first field of that name. */
  function Value(xs: seq<Spaced>, key: string): Option<string> {
    if xs == [] then None else if xs[0].key == key then Some(xs[0].value) else Value(xs[1..], key)
  }

  function Or(a: Option<string>, b: Option<string>): Option<string> {
    if a.Some? then a else b
  }

  /** Fields are accepted exactly when their keys are known and differ from one another and from
      those put before, and then each is the value its key has. */
  lemma {:induction false} PutAllIs(f: Fields, xs: seq<Spaced>)
    ensures PutAll(f, xs).Some? <==>
              && Distinct(xs) && (f.role.Some? ==> Value(xs, ROLE).None?)
              && (f.content.Some? ==> Value(xs, CONTENT).None?) && (f.reasoning.Some? ==> Value(xs, REASONING).None?)
    ensures PutAll(f, xs).Some? ==>
              PutAll(f, xs).value
              == Fields(Or(f.role, Value(xs, ROLE)), Or(f.content, Value(xs, CONTENT)),
                Or(f.reasoning, Value(xs, REASONING)))
    decreases |xs|
  {
    KeysDiffer();
    hide ROLE, CONTENT, REASONING, Distinct;
    DistinctFirst(xs);
    if xs != [] && Put(f, xs[0].key, xs[0].value).Some? { PutAllIs(Put(f, xs[0].key, xs[0].value).value, xs[1..]); }
  }

  lemma KeysDiffer()
    ensures ROLE != CONTENT && ROLE != REASONING && CONTENT != REASONING
  {
    assert |ROLE| == 4 && |CONTENT| == 7 && |REASONING| == 17;
  }

  lemma {:induction false} ValueIs(xs: seq<Spaced>, key: string)
    ensures Value(xs, key).None? <==> forall i :: 0 <= i < |xs| ==> xs[i].key != key
    decreases |xs|
  {
    if xs != [] {
      ValueIs(xs[1..], key);
      assert xs == [xs[0]] + xs[1..];
    }
  }

  lemma DistinctFirst(xs: seq<Spaced>)
    ensures xs == [] ==> Distinct(xs)
    ensures xs != [] ==>
              (Distinct(xs) <==> Distinct(xs[1..]) && Value(xs[1..], xs[0].key).None?
                                 && (xs[0].key == ROLE || xs[0].key == CONTENT || xs[0].key == REASONING))
  {
    hide ROLE, CONTENT, REASONING, Value;
    if xs != [] {
      ValueIs(xs[1..], xs[0].key);
      assert xs == [xs[0]] + xs[1..];
    }
  }

  /** Every field of xs is one of ys, whatever the space around it. */
  ghost predicate Among(xs: seq<Spaced>, ys: seq<Spaced>) {
    forall i :: 0 <= i < |xs| ==> Has(ys, xs[i].key, xs[i].value)
  }

  ghost predicate Has(xs: seq<Spaced>, key: string, value: string) {
    exists i :: 0 <= i < |xs| && xs[i].key == key && xs[i].value == value
  }

  lemma {:induction false} HasIs(xs: seq<Spaced>, key: string, value: string)
    requires Distinct(xs)
    ensures Has(xs, key, value) <==> Value(xs, key) == Some(value)
    decreases |xs|
  {
    hide Distinct;
    DistinctFirst(xs);
    if xs != [] {
      assert xs == [xs[0]] + xs[1..];
      HasIs(xs[1..], key, value);
      HasFirst(xs, key, value);
    }
  }

  lemma HasFirst(xs: seq<Spaced>, key: string, value: string)
    requires xs != []
    ensures Has(xs, key, value) <==> (xs[0].key == key && xs[0].value == value) || Has(xs[1..], key, value)
  {
    if Has(xs[1..], key, value) {
      var i :| 0 <= i < |xs[1..]| && xs[1..][i].key == key && xs[1..][i].value == value;
      assert xs[i + 1] == xs[1..][i];
    }
    if Has(xs, key, value) {
      var i :| 0 <= i < |xs| && xs[i].key == key && xs[i].value == value;
      if i > 0 { assert xs[1..][i - 1] == xs[i]; }
    }
  }

  lemma SameValue(xs: seq<Spaced>, ys: seq<Spaced>, key: string)
    requires Distinct(xs) && Distinct(ys) && Among(xs, ys) && Among(ys, xs)
    ensures Value(xs, key) == Value(ys, key)
  {
    hide Distinct;
    ValueIs(xs, key);
    ValueIs(ys, key);
    if Value(xs, key).Some? {
      HasIs(xs, key, Value(xs, key).value);
      HasIs(ys, key, Value(xs, key).value);
    }
    if Value(ys, key).Some? {
      HasIs(xs, key, Value(ys, key).value);
      HasIs(ys, key, Value(ys, key).value);
    }
  }

  /** The same fields in another order, or with other space between them, are the same message;
      a repeated or unknown key makes a line no message at all. */
  lemma OrderIsFree(xs: seq<Spaced>, ys: seq<Spaced>)
    ensures PutAll(Fields(None, None, None), xs).Some? <==> Distinct(xs)
    ensures Distinct(xs) && Distinct(ys) && Among(xs, ys) && Among(ys, xs) ==>
              PutAll(Fields(None, None, None), xs) == PutAll(Fields(None, None, None), ys)
  {
    hide PutAll, Distinct, Value, Among;
    PutAllIs(Fields(None, None, None), xs);
    PutAllIs(Fields(None, None, None), ys);
    if Distinct(xs) && Distinct(ys) && Among(xs, ys) && Among(ys, xs) {
      SameValue(xs, ys, ROLE);
      SameValue(xs, ys, CONTENT);
      SameValue(xs, ys, REASONING);
    }
  }

  /* ------------------------------------------------------------ the file */

  function FileOf(h: seq<Message>): string
    requires forall i :: 0 <= i < |h| ==> CMessage(h[i])
  {
    if h == [] then "" else FileOf(h[..|h| - 1]) + Record(h[|h| - 1]) + "\n"
  }

  /** `k3_chat_history_save`. */
  method Save(h: seq<Message>) returns (file: Option<string>)
    requires forall i :: 0 <= i < |h| ==> CMessage(h[i])
    ensures file == if ValidHistory(h) then Some(FileOf(h)) else None
  {
    hide Record, CMessage, CString;
    var valid := Validate(h);
    if !valid { return None; }
    var out := "";
    for i := 0 to |h|
      invariant out == FileOf(h[..i])
    {
      assert h[..i + 1][..i] == h[..i];
      var line := WriteRecord(h[i]);
      out := out + line + "\n";
    }
    assert h[..|h|] == h;
    file := Some(out);
  }

  method WriteRecord(m: Message) returns (line: string)
    requires CMessage(m)
    ensures line == Record(m)
  {
    hide Quoted;
    RoleIsPlain(m.role);
    var role := JWrite(RoleName(m.role));
    var content := JWrite(m.content);
    line := "{\"" + ROLE + "\":" + role + ",\"" + CONTENT + "\":" + content;
    if m.role == Assistant && m.reasoning.Some? {
      var reasoning := JWrite(m.reasoning.value);
      line := line + (",\"" + REASONING + "\":" + reasoning);
    }
    line := line + "}";
  }

  /** Reading from position i on, with `cur` of the current line and `h` read. */
  function LoadFrom(file: string, i: nat, cur: string, h: seq<Message>): Option<seq<Message>>
    requires i <= |file|
    decreases |file| - i
  {
    if i == |file| then
      if cur == "" then Some(h)
      else match Parse(cur) case None => None case Some(m) => Some(h + [m])
    else if file[i] == '\n' then
      if cur == "" then None
      else match Parse(cur) case None => None case Some(m) => LoadFrom(file, i + 1, "", h + [m])
    else if |cur| >= LIMIT then None
    else LoadFrom(file, i + 1, cur + [file[i]], h)
  }

  /** `k3_chat_history_load` into an empty history. */
  method Load(file: string) returns (h: Option<seq<Message>>)
    ensures h == match LoadFrom(file, 0, "", []) case None => None case Some(r) => if ValidHistory(r) then Some(r)
            else None
  {
    hide Parse, ValidHistory;
    var line, out := "", [];
    for i := 0 to |file|
      invariant LoadFrom(file, 0, "", []) == LoadFrom(file, i, line, out)
    {
      if file[i] == '\n' {
        if line == "" { return None; }
        var m := ParseRecord(line);
        if m.None? { return None; }
        out, line := out + [m.value], "";
      } else {
        if |line| >= LIMIT { return None; }
        line := line + [file[i]];
      }
    }
    if line != "" {
      var m := ParseRecord(line);
      if m.None? { return None; }
      out := out + [m.value];
    }
    var valid := Validate(out);
    h := if valid then Some(out) else None;
  }

  lemma EscHasNoNewline(c: char, i: nat)
    requires c as int < 256 && i < |Esc(c)|
    ensures Esc(c)[i] != '\n'
  {
  }

  lemma {:induction false} BodyHasNoNewline(s: string)
    requires CString(s)
    ensures '\n' !in Body(s)
  {
    hide Esc;
    if s != "" {
      BodyHasNoNewline(s[1..]);
      forall i | 0 <= i < |Esc(s[0])| ensures Esc(s[0])[i] != '\n' { EscHasNoNewline(s[0], i); }
    }
  }

  lemma QuotedIsOneLine(s: string)
    requires CString(s)
    ensures '\n' !in Quoted(s)
  {
    BodyHasNoNewline(s);
  }

  lemma FieldIsOneLine(key: string, value: string)
    requires CString(key) && CString(value)
    ensures '\n' !in FieldText(key, value)
  {
    hide Quoted;
    QuotedIsOneLine(key);
    QuotedIsOneLine(value);
  }

  lemma RecordIsOneLine(m: Message)
    requires CMessage(m)
    ensures '\n' !in Record(m) && Record(m) != ""
  {
    hide FieldText, CString, Record, RoleName, ROLE, CONTENT, REASONING;
    RecordFields(m);
    FieldIsOneLine(ROLE, RoleName(m.role));
    FieldIsOneLine(CONTENT, m.content);
    if Kept(m).reasoning.Some? { FieldIsOneLine(REASONING, m.reasoning.value); }
  }

  /** A line is read into the buffer, or is too long for it. */
  lemma {:induction false} LineReads(file: string, p: nat, line: string, h: seq<Message>, k: nat)
    requires Holds(file, p, line) && '\n' !in line && k <= |line| && k <= LIMIT
    ensures LoadFrom(file, p + k, line[..k], h) == if |line| > LIMIT then None else LoadFrom(file, p + |line|, line, h)
    decreases |line| - k
  {
    hide Parse;
    if k < |line| {
      assert line[k] == file[p..p + |line|][k] == file[p + k] && line[k] in line;
      if k < LIMIT {
        LineReads(file, p, line, h, k + 1);
        assert line[..k] + [line[k]] == line[..k + 1];
      }
    } else {
      assert line[..k] == line;
    }
  }

  lemma NewlineParses(file: string, i: nat, line: string, h: seq<Message>, m: Message)
    requires i < |file| && file[i] == '\n' && line != "" && Parse(line) == Some(m)
    ensures LoadFrom(file, i, line, h) == LoadFrom(file, i + 1, "", h + [m])
  {
    hide Parse;
  }

  lemma RecordLoads(file: string, p: nat, m: Message, h: seq<Message>)
    requires CMessage(m) && Holds(file, p, Record(m) + "\n")
    ensures p + |Record(m)| + 1 <= |file|
    ensures LoadFrom(file, p, "", h)
         == if |Record(m)| > LIMIT then None else LoadFrom(file, p + |Record(m)| + 1, "", h + [Kept(m)])
  {
    hide Record, Parse, LoadFrom, CMessage, Holds;
    RecordIsOneLine(m);
    ParseOfRecord(m);
    HoldsSplit(file, p, Record(m), "\n");
    HoldsInside(file, p + |Record(m)|, "\n");
    LineReads(file, p, Record(m), h, 0);
    assert Record(m)[..0] == "";
    NewlineParses(file, p + |Record(m)|, Record(m), h, Kept(m));
  }

  /** No line of the file is longer than the limit. */
  ghost predicate LinesFit(h: seq<Message>)
    requires forall i :: 0 <= i < |h| ==> CMessage(h[i])
  {
    forall i :: 0 <= i < |h| ==> |Record(h[i])| <= LIMIT
  }

  function KeptAll(h: seq<Message>): (r: seq<Message>)
    ensures |r| == |h|
  {
    seq(|h|, i requires 0 <= i < |h| => Kept(h[i]))
  }

  /** Loading from the n-th line of a saved file on. */
  lemma {:induction false} FileLoads(h: seq<Message>, n: nat)
    requires n <= |h| && forall i :: 0 <= i < |h| ==> CMessage(h[i])
    ensures |FileOf(h[..n])| <= |FileOf(h)|
    ensures LoadFrom(FileOf(h), |FileOf(h[..n])|, "", KeptAll(h[..n]))
         == if exists i :: n <= i < |h| && |Record(h[i])| > LIMIT then None else Some(KeptAll(h))
    decreases |h| - n
  {
    hide Record, CMessage, LoadFrom, FileOf, Holds;
    LoadedAll(FileOf(h), KeptAll(h));
    if n == |h| {
      assert h[..n] == h;
    } else {
      FileLoads(h, n + 1);
      FilePrefix(h, n + 1);
      LineInFile(h, n);
      RecordLoads(FileOf(h), |FileOf(h[..n])|, h[n], KeptAll(h[..n]));
      assert KeptAll(h[..n + 1]) == KeptAll(h[..n]) + [Kept(h[n])];
    }
  }

  lemma LoadedAll(file: string, h: seq<Message>)
    ensures LoadFrom(file, |file|, "", h) == Some(h)
  {
  }

  /** Line n of a saved file. */
  lemma LineInFile(h: seq<Message>, n: nat)
    requires n < |h| && (forall i :: 0 <= i < |h| ==> CMessage(h[i])) && FileOf(h[..n + 1]) <= FileOf(h)
    ensures |FileOf(h[..n + 1])| == |FileOf(h[..n])| + |Record(h[n])| + 1
    ensures Holds(FileOf(h), |FileOf(h[..n])|, Record(h[n]) + "\n")
  {
    hide Record, CMessage;
    assert h[..n + 1][..n] == h[..n];
    var a, r := FileOf(h[..n]), Record(h[n]) + "\n";
    assert FileOf(h[..n + 1]) == a + r;
    assert FileOf(h)[..|a + r|] == a + r;
    assert FileOf(h)[|a|..|a| + |r|] == (a + r)[|a|..];
  }

  lemma {:induction false} FilePrefix(h: seq<Message>, n: nat)
    requires n <= |h| && forall i :: 0 <= i < |h| ==> CMessage(h[i])
    ensures FileOf(h[..n]) <= FileOf(h)
  {
    hide Record, CMessage;
    if n == |h| {
      assert h[..n] == h;
    } else {
      FilePrefix(h[..|h| - 1], n);
      assert h[..|h| - 1][..n] == h[..n];
    }
  }

  /** What a saved history loads as. */
  lemma SavedLoads(h: seq<Message>)
    requires forall i :: 0 <= i < |h| ==> CMessage(h[i])
    ensures LoadFrom(FileOf(h), 0, "", []) == if LinesFit(h) then Some(KeptAll(h)) else None
  {
    hide Record, CMessage, LoadFrom;
    FileLoads(h, 0);
    assert h[..0] == [] && FileOf([]) == "" && KeptAll([]) == [];
  }

  lemma KeptStaysValid(h: seq<Message>)
    requires ValidHistory(h)
    ensures ValidHistory(KeptAll(h))
  {
    var r := KeptAll(h);
    forall i | 0 <= i < |r| ensures Belongs(r, i) { assert Belongs(h, i); }
  }

  /** Saving and loading gives the history back exactly when every line fits the reader's limit
      and the system message, if any, carries no reasoning. */
  method SaveThenLoad(h: seq<Message>) returns (back: Option<seq<Message>>)
    requires ValidHistory(h) && forall i :: 0 <= i < |h| ==> CMessage(h[i])
    ensures back == Some(h) <==> LinesFit(h) && (h != [] && h[0].role == System ==> h[0].reasoning == None)
    ensures back == if LinesFit(h) then Some(KeptAll(h)) else None
  {
    hide LoadFrom, FileOf, CMessage, LinesFit, ValidHistory;
    var file := Save(h);
    back := Load(file.value);
    SavedLoads(h);
    KeptStaysValid(h);
    KeptIsAll(h);
  }

  lemma KeptIsAll(h: seq<Message>)
    requires ValidHistory(h)
    ensures KeptAll(h) == h <==> (h != [] && h[0].role == System ==> h[0].reasoning == None)
  {
    if h != [] && h[0].role == System ==> h[0].reasoning == None {
      forall i | 0 <= i < |h| ensures KeptAll(h)[i] == h[i] { assert Belongs(h, i); }
    } else {
      assert KeptAll(h)[0] != h[0];
    }
  }
}
