/** The text `json.dumps` writes with its defaults, and how `json.loads` reads a string token back. */
module JsonText {
  import opened Options
  import opened Bytes
  import opened Sequences
  import opened Splitter


  // ---- Strings (RFC 8259, section 7) ----

  function HexDigit(n: nat): byte
    requires n < 16
  {
    "0123456789abcdef"[n]
  }

  /** `'\\u{0:04x}'.format(n)` */
  function UnicodeEscape(n: nat): bytes
    requires n < 0x10000
  {
    [BACKSLASH, 'u', HexDigit(n / 4096), HexDigit(n / 256 % 16), HexDigit(n / 16 % 16), HexDigit(n % 16)]
  }

  function EncodeChar(c: char): bytes {
    if c == '"' then "\\\""
    else if c == '\\' then "\\\\"
    else if c == '\n' then "\\n"
    else if c == '\r' then "\\r"
    else if c == '\t' then "\\t"
    else if c as int == 8 then "\\b"
    else if c as int == 12 then "\\f"
    else if ' ' <= c <= '~' then [c]
    else if c as int < 0x10000 then UnicodeEscape(c as int)
    else
      var n := c as int - 0x10000;
      UnicodeEscape(0xd800 + n / 1024) + UnicodeEscape(0xdc00 + n % 1024)
  }

  function EncodeBody(s: string): bytes {
    if s == [] then [] else EncodeChar(s[0]) + EncodeBody(s[1..])
  }

  function EncodeString(s: string): bytes {
    [QUOTE] + EncodeBody(s) + [QUOTE]
  }

  function HexValue(b: byte): Option<nat> {
    if '0' <= b <= '9' then Some(b as int - '0' as int)
    else if 'a' <= b <= 'f' then Some(b as int - 'a' as int + 10)
    else if 'A' <= b <= 'F' then Some(b as int - 'A' as int + 10)
    else None
  }

  /** The four hexadecimal digits at `s[2..6]`, when `s` starts with a `\u` escape. */
  function UnicodeValue(s: bytes): (r: Option<nat>)
    ensures r.Some? ==> |s| >= 6 && r.value < 0x10000
  {
    if |s| < 6 || s[0] != BACKSLASH || s[1] != 'u' then None
    else
      match (HexValue(s[2]), HexValue(s[3]), HexValue(s[4]), HexValue(s[5]))
      case (Some(a), Some(b), Some(c), Some(d)) =>
        if a < 16 && b < 16 && c < 16 && d < 16 then Some(((a * 16 + b) * 16 + c) * 16 + d) else None
      case _ => None
  }

  function ShortEscape(b: byte): Option<char> {
    if b == '"' || b == '\\' || b == '/' then Some(b)
    else if b == 'b' then Some(8 as char)
    else if b == 'f' then Some(12 as char)
    else if b == 'n' then Some('\n')
    else if b == 'r' then Some('\r')
    else if b == 't' then Some('\t')
    else None
  }

  /** The character `s` starts with and how many bytes write it; None where `json.loads` raises. */
  function DecodeChar(s: bytes): (r: Option<(char, nat)>)
    requires s != []
    ensures r.Some? ==> 0 < r.value.1 <= |s|
  {
    if s[0] != BACKSLASH then
      if s[0] < ' ' || s[0] == QUOTE then None else Some((s[0], 1))
    else if |s| == 1 then None
    else if s[1] != 'u' then
      (match ShortEscape(s[1])
       case Some(c) => Some((c, 2))
       case None => None)
    else
      match UnicodeValue(s)
      case None => None
      case Some(high) =>
        if high < 0xd800 || 0xe000 <= high then Some((high as char, 6))
        else
          match UnicodeValue(s[6..])
          case Some(low) =>
            if high < 0xdc00 && 0xdc00 <= low < 0xe000
            then Some(((0x10000 + (high - 0xd800) * 1024 + (low - 0xdc00)) as char, 12))
            else None
          case None => None
  }

  function DecodeBody(s: bytes): Option<string>
    decreases |s|
  {
    if s == [] then Some([])
    else
      match DecodeChar(s)
      case None => None
      case Some((c, n)) =>
        match DecodeBody(s[n..])
        case None => None
        case Some(rest) => Some([c] + rest)
  }

  /** `json.loads(token)` of a string token. */
  function DecodeString(token: bytes): Option<string> {
    if |token| < 2 || token[0] != QUOTE || token[|token| - 1] != QUOTE then None
    else DecodeBody(token[1..|token| - 1])
  }

  lemma Digits(n: nat)
    ensures n == ((n / 4096 * 16 + n / 256 % 16) * 16 + n / 16 % 16) * 16 + n % 16
  {
    var a, b := n / 16, n / 256;
    assert n == a * 16 + n % 16;
    assert b == a / 16 && a == b * 16 + a % 16;
    assert n / 4096 == b / 16 && b == b / 16 * 16 + b % 16;
  }

  lemma UnicodeRoundTrip(n: nat, rest: bytes)
    requires n < 0x10000
    ensures UnicodeValue(UnicodeEscape(n) + rest) == Some(n)
  {
    var s := UnicodeEscape(n) + rest;
    var a, b, c, d := n / 4096, n / 256 % 16, n / 16 % 16, n % 16;
    HexRoundTrip(a);
    HexRoundTrip(b);
    HexRoundTrip(c);
    HexRoundTrip(d);
    assert s[0] == BACKSLASH && s[1] == 'u';
    assert s[2] == HexDigit(a) && s[3] == HexDigit(b) && s[4] == HexDigit(c) && s[5] == HexDigit(d);
    Digits(n);
  }

  lemma HexRoundTrip(n: nat)
    requires n < 16
    ensures HexValue(HexDigit(n)) == Some(n)
    ensures HexDigit(n) != QUOTE && HexDigit(n) != BACKSLASH
  {
  }

  lemma EscapeStart(n: nat, rest: bytes)
    requires n < 0x10000
    ensures |UnicodeEscape(n)| == 6
    ensures (UnicodeEscape(n) + rest)[0] == BACKSLASH && (UnicodeEscape(n) + rest)[1] == 'u'
    ensures (UnicodeEscape(n) + rest)[6..] == rest
  {
  }

  /** One escape for a character that is not half of a surrogate pair. */
  lemma EscapeRoundTrip(n: nat, rest: bytes)
    requires n < 0xd800 || 0xe000 <= n < 0x10000
    ensures DecodeChar(UnicodeEscape(n) + rest) == Some((n as char, 6))
  {
    hide UnicodeEscape, UnicodeValue, ShortEscape;
    EscapeStart(n, rest);
    UnicodeRoundTrip(n, rest);
  }

  lemma PairValue(n: nat)
    requires 0x10000 <= n < 0x110000
    ensures (n - 0x10000) / 1024 < 1024
    ensures n == 0x10000 + (n - 0x10000) / 1024 * 1024 + (n - 0x10000) % 1024
  {
  }

  /** A surrogate pair for a character beyond the basic plane. */
  lemma PairRoundTrip(high: nat, low: nat, rest: bytes)
    requires 0xd800 <= high < 0xdc00 <= low < 0xe000
    ensures DecodeChar(UnicodeEscape(high) + UnicodeEscape(low) + rest) ==
            Some(((0x10000 + (high - 0xd800) * 1024 + (low - 0xdc00)) as char, 12))
  {
    hide UnicodeEscape, UnicodeValue, ShortEscape;
    var tail := UnicodeEscape(low) + rest;
    Assoc(UnicodeEscape(high), UnicodeEscape(low), rest);
    EscapeStart(high, tail);
    EscapeStart(low, rest);
    UnicodeRoundTrip(high, tail);
    UnicodeRoundTrip(low, rest);
  }

  lemma CharRoundTrip(c: char, rest: bytes)
    ensures DecodeChar(EncodeChar(c) + rest) == Some((c, |EncodeChar(c)|))
  {
    if c as int >= 0x10000 {
      hide DecodeChar, UnicodeEscape;
      var n := c as int - 0x10000;
      PairValue(c as int);
      PairRoundTrip(0xd800 + n / 1024, 0xdc00 + n % 1024, rest);
      EscapeStart(0xd800 + n / 1024, []);
      EscapeStart(0xdc00 + n % 1024, []);
    } else if c as int >= 127 || (c < ' ' && c != '\n' && c != '\r' && c != '\t' && c as int != 8 && c as int != 12) {
      hide DecodeChar, UnicodeEscape;
      EscapeRoundTrip(c as int, rest);
      EscapeStart(c as int, rest);
    } else {
      hide UnicodeEscape, UnicodeValue;
    }
  }

  lemma {:induction false} BodyRoundTrip(s: string)
    ensures DecodeBody(EncodeBody(s)) == Some(s)
  {
    if s != [] {
      BodyRoundTrip(s[1..]);
      CharRoundTrip(s[0], EncodeBody(s[1..]));
      assert EncodeBody(s)[|EncodeChar(s[0])|..] == EncodeBody(s[1..]);
      assert s == [s[0]] + s[1..];
    }
  }

  /** What a name is written as reads back as that name. */
  lemma StringRoundTrip(s: string)
    ensures DecodeString(EncodeString(s)) == Some(s)
  {
    BodyRoundTrip(s);
    assert EncodeString(s)[1..|EncodeString(s)| - 1] == EncodeBody(s);
  }

  lemma {:induction false} ScanConcat(a: bytes, b: bytes)
    requires ScanBody(a) == Open(false)
    ensures ScanBody(a + b) == ScanBody(b)
  {
    if b == [] {
      NothingAfter(a);
    } else {
      var front, last := b[..|b| - 1], b[|b| - 1];
      ScanConcat(a, front);
      ScanAppend(a + front, last);
      ScanAppend(front, last);
      Unsnoc(b);
      Assoc(a, front, [last]);
    }
  }

  lemma ScanTwo(a: byte, b: byte)
    ensures ScanBody([a, b]) == ScanBody([a] + [b])
    ensures a == BACKSLASH ==> ScanBody([a, b]) == Open(false)
  {
    assert [a, b] == [a] + [b] && [a] == [] + [a];
    ScanAppend([], a);
    ScanAppend([a], b);
  }

  lemma ScanOne(b: byte)
    requires b != QUOTE && b != BACKSLASH
    ensures ScanBody([b]) == Open(false)
  {
    ScanPlain([], [b]);
    assert [] + [b] == [b];
  }

  lemma ScanEscape(n: nat)
    requires n < 0x10000
    ensures ScanBody(UnicodeEscape(n)) == Open(false)
  {
    var digits := [HexDigit(n / 4096), HexDigit(n / 256 % 16), HexDigit(n / 16 % 16), HexDigit(n % 16)];
    HexRoundTrip(n / 4096);
    HexRoundTrip(n / 256 % 16);
    HexRoundTrip(n / 16 % 16);
    HexRoundTrip(n % 16);
    ScanTwo(BACKSLASH, 'u');
    ScanPlain([BACKSLASH, 'u'], digits);
    assert UnicodeEscape(n) == [BACKSLASH, 'u'] + digits;
  }

  lemma ScanChar(c: char)
    ensures ScanBody(EncodeChar(c)) == Open(false)
  {
    var e := EncodeChar(c);
    if c as int >= 0x10000 {
      var n := c as int - 0x10000;
      ScanEscape(0xd800 + n / 1024);
      ScanEscape(0xdc00 + n % 1024);
      ScanConcat(UnicodeEscape(0xd800 + n / 1024), UnicodeEscape(0xdc00 + n % 1024));
    } else if |e| == 1 {
      ScanOne(e[0]);
    } else if |e| == 2 {
      ScanTwo(e[0], e[1]);
    } else {
      ScanEscape(c as int);
    }
  }

  lemma {:induction false} ScanEncoded(s: string)
    ensures ScanBody(EncodeBody(s)) == Open(false)
  {
    if s != [] {
      ScanEncoded(s[1..]);
      ScanChar(s[0]);
      ScanConcat(EncodeChar(s[0]), EncodeBody(s[1..]));
    }
  }

  /** Whatever a name holds, its text is one string token: no quote or backslash in it ends it early. */
  lemma EncodedIsToken(s: string)
    ensures IsStringToken(EncodeString(s))
  {
    ScanEncoded(s);
    ScanAppend(EncodeBody(s), QUOTE);
    assert EncodeString(s)[1..] == EncodeBody(s) + [QUOTE];
  }

  // ---- Numbers ----

  /** A Python number as `json.dumps` writes it: its `repr`, or one of three names JSON does not have. */
  datatype Number = Finite(text: bytes) | NaN | PosInfinity | NegInfinity

  predicate NumberByte(b: byte) {
    '0' <= b <= '9' || b == '+' || b == '-' || b == '.' || b == 'e' || b == 'E'
  }

  predicate IsNumberText(s: bytes) {
    s != [] && forall i :: 0 <= i < |s| ==> NumberByte(s[i])
  }

  predicate IsNumber(n: Number) {
    n.Finite? ==> IsNumberText(n.text)
  }

  function EncodeNumber(n: Number): bytes {
    match n
    case Finite(text) => text
    case NaN => "NaN"
    case PosInfinity => "Infinity"
    case NegInfinity => "-Infinity"
  }

  // ---- Values ----

  datatype Member = Member(name: string, value: Json)

  datatype Json =
    | JNull
    | JNumber(number: Number)
    | JString(text: string)
    | JArray(items: seq<Json>)
    | JObject(members: seq<Member>)

  /** Every number in the value is the text of a Python number. */
  ghost predicate IsJson(j: Json) {
    match j
    case JNull => true
    case JNumber(n) => IsNumber(n)
    case JString(_) => true
    case JArray(items) => forall i :: 0 <= i < |items| ==> IsJson(items[i])
    case JObject(members) => forall i :: 0 <= i < |members| ==> IsJson(members[i].value)
  }

  /** `json.dumps(j).encode()` */
  function Print(j: Json): bytes
    decreases j, 1
  {
    match j
    case JNull => "null"
    case JNumber(n) => EncodeNumber(n)
    case JString(s) => EncodeString(s)
    case JArray(items) => "[" + PrintItems(items) + "]"
    case JObject(members) => "{" + PrintMembers(members) + "}"
  }

  function PrintItems(items: seq<Json>): bytes
    decreases items, 0
  {
    if items == [] then []
    else if |items| == 1 then Print(items[0])
    else Print(items[0]) + ", " + PrintItems(items[1..])
  }

  function PrintMember(member: Member): bytes
    decreases member, 0
  {
    EncodeString(member.name) + ": " + Print(member.value)
  }

  function PrintMembers(members: seq<Member>): bytes
    decreases members, 0
  {
    if members == [] then []
    else if |members| == 1 then PrintMember(members[0])
    else PrintMember(members[0]) + ", " + PrintMembers(members[1..])
  }

  lemma {:induction false} PrintItemsSnoc(items: seq<Json>, item: Json)
    ensures PrintItems(items + [item]) ==
            if items == [] then Print(item) else PrintItems(items) + ", " + Print(item)
  {
    if items == [] {
      assert items + [item] == [item];
    } else {
      PrintItemsSnoc(items[1..], item);
      assert (items + [item])[1..] == items[1..] + [item];
      if |items| > 1 {
        AssocThree(Print(items[0]) + ", ", PrintItems(items[1..]), ", ", Print(item));
      }
    }
  }

  lemma {:induction false} PrintMembersSnoc(members: seq<Member>, member: Member)
    ensures PrintMembers(members + [member]) ==
            if members == [] then PrintMember(member) else PrintMembers(members) + ", " + PrintMember(member)
  {
    if members == [] {
      assert members + [member] == [member];
    } else {
      PrintMembersSnoc(members[1..], member);
      assert (members + [member])[1..] == members[1..] + [member];
      if |members| > 1 {
        AssocThree(PrintMember(members[0]) + ", ", PrintMembers(members[1..]), ", ", PrintMember(member));
      }
    }
  }

  // ---- Where the strings of a printed value are ----

  /** A value's text cut at its strings, in order. Some runs may be empty or adjacent. */
  function TextPieces(j: Json): seq<Piece>
    decreases j, 1
  {
    match j
    case JNull => [Run("null")]
    case JNumber(n) => [Run(EncodeNumber(n))]
    case JString(s) => [Str(EncodeString(s))]
    case JArray(items) => [Run("[")] + ItemPieces(items) + [Run("]")]
    case JObject(members) => [Run("{")] + MemberPieces(members) + [Run("}")]
  }

  function ItemPieces(items: seq<Json>): seq<Piece>
    decreases items, 0
  {
    if items == [] then []
    else if |items| == 1 then TextPieces(items[0])
    else TextPieces(items[0]) + [Run(", ")] + ItemPieces(items[1..])
  }

  function KeyPieces(name: string): seq<Piece> {
    [Str(EncodeString(name)), Run(": ")]
  }

  function MemberPiece(member: Member): seq<Piece>
    decreases member, 0
  {
    KeyPieces(member.name) + TextPieces(member.value)
  }

  function MemberPieces(members: seq<Member>): seq<Piece>
    decreases members, 0
  {
    if members == [] then []
    else if |members| == 1 then MemberPiece(members[0])
    else MemberPiece(members[0]) + [Run(", ")] + MemberPieces(members[1..])
  }

  /** Whole strings, and runs without a quote. */
  ghost predicate Unmerged(pieces: seq<Piece>) {
    forall i :: 0 <= i < |pieces| ==> IsPiece(pieces[i]) || pieces[i] == Run([])
  }

  lemma {:induction false} ConcatAppend(a: seq<Piece>, b: seq<Piece>)
    ensures Concat(a + b) == Concat(a) + Concat(b)
  {
    if b == [] {
      NothingAfter(a);
    } else {
      ConcatAppend(a, b[..|b| - 1]);
      Unsnoc(b);
      Assoc(a, b[..|b| - 1], [b[|b| - 1]]);
      ConcatSnoc(a + b[..|b| - 1], b[|b| - 1]);
      Assoc(Concat(a), Concat(b[..|b| - 1]), b[|b| - 1].text);
    }
  }

  lemma ConcatOne(piece: Piece)
    ensures Concat([piece]) == piece.text
  {
    ConcatSnoc([], piece);
  }

  lemma {:induction false} MergedAreTokens(pieces: seq<Piece>)
    requires Unmerged(pieces)
    ensures AreTokens(Merge(pieces))
  {
    if pieces != [] {
      MergedAreTokens(pieces[..|pieces| - 1]);
      AddPieceKeepsTokens(Merge(pieces[..|pieces| - 1]), pieces[|pieces| - 1]);
    }
  }

  lemma NumberTextHasNoQuote(n: Number)
    requires IsNumber(n)
    ensures EncodeNumber(n) != [] && QUOTE !in EncodeNumber(n) && '{' !in EncodeNumber(n) && '}' !in EncodeNumber(n)
  {
  }

  lemma CommaBetween(a: seq<Piece>, b: seq<Piece>)
    requires Unmerged(a) && Unmerged(b)
    ensures Unmerged(a + [Run(", ")] + b)
    ensures Concat(a + [Run(", ")] + b) == Concat(a) + ", " + Concat(b)
  {
    ConcatSnoc(a, Run(", "));
    ConcatAppend(a + [Run(", ")], b);
  }

  lemma {:induction false} TextPiecesOfValue(j: Json)
    requires IsJson(j)
    ensures Unmerged(TextPieces(j)) && Concat(TextPieces(j)) == Print(j)
    decreases j, 1
  {
    match j
    case JNull =>
      ConcatOne(Run("null"));
    case JNumber(n) =>
      NumberTextHasNoQuote(n);
      ConcatOne(Run(EncodeNumber(n)));
    case JString(s) =>
      EncodedIsToken(s);
      ConcatOne(Str(EncodeString(s)));
    case JArray(items) =>
      TextPiecesOfItems(items);
      ConcatOne(Run("["));
      ConcatOne(Run("]"));
      ConcatAppend([Run("[")], ItemPieces(items));
      ConcatAppend([Run("[")] + ItemPieces(items), [Run("]")]);
    case JObject(members) =>
      TextPiecesOfMembers(members);
      ConcatOne(Run("{"));
      ConcatOne(Run("}"));
      ConcatAppend([Run("{")], MemberPieces(members));
      ConcatAppend([Run("{")] + MemberPieces(members), [Run("}")]);
  }

  lemma {:induction false} TextPiecesOfItems(items: seq<Json>)
    requires forall i :: 0 <= i < |items| ==> IsJson(items[i])
    ensures Unmerged(ItemPieces(items)) && Concat(ItemPieces(items)) == PrintItems(items)
    decreases items, 0
  {
    if items != [] {
      TextPiecesOfValue(items[0]);
      TextPiecesOfItems(items[1..]);
      CommaBetween(TextPieces(items[0]), ItemPieces(items[1..]));
    }
  }

  lemma KeyPiecesText(name: string)
    ensures Unmerged(KeyPieces(name)) && Concat(KeyPieces(name)) == EncodeString(name) + ": "
  {
    var key := Str(EncodeString(name));
    EncodedIsToken(name);
    ConcatOne(key);
    ConcatSnoc([key], Run(": "));
    assert KeyPieces(name) == [key] + [Run(": ")];
  }

  lemma {:induction false} TextPiecesOfMember(member: Member)
    requires IsJson(member.value)
    ensures Unmerged(MemberPiece(member)) && Concat(MemberPiece(member)) == PrintMember(member)
    decreases member, 0
  {
    TextPiecesOfValue(member.value);
    KeyPiecesText(member.name);
    ConcatAppend(KeyPieces(member.name), TextPieces(member.value));
  }

  lemma {:induction false} TextPiecesOfMembers(members: seq<Member>)
    requires forall i :: 0 <= i < |members| ==> IsJson(members[i].value)
    ensures Unmerged(MemberPieces(members)) && Concat(MemberPieces(members)) == PrintMembers(members)
    decreases members, 0
  {
    if members != [] {
      TextPiecesOfMember(members[0]);
      TextPiecesOfMembers(members[1..]);
      CommaBetween(MemberPiece(members[0]), MemberPieces(members[1..]));
    }
  }

  /**
   * The splitter finds, in the text of any value, exactly the strings that were printed,
   * in order and whole, whatever they hold.
   */
  lemma SplitOfPrinted(j: Json)
    requires IsJson(j)
    ensures SplitOf(Print(j)) == Split(Merge(TextPieces(j)), [])
  {
    TextPiecesOfValue(j);
    MergedAreTokens(TextPieces(j));
    MergeConcat(TextPieces(j));
    NothingAfter(Print(j));
    SplitIsUnique(Split(Merge(TextPieces(j)), []), Print(j));
  }
}
