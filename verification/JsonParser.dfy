/** Reading any JSON text (RFC 8259) as one value: what a stored document says to a reader of the whole of it. */
module JsonParser {
  import opened Options
  import opened Bytes
  import opened Sequences
  import opened JsonText
  import opened Printer
  import opened IterationReader
  import opened RoundTrip

  // ---- The reader ----

  /** How many bytes of `s` end the string whose opening quote is before them; None when it is not closed. */
  function StringRest(s: bytes): (n: Option<nat>)
    ensures n.Some? ==> 0 < n.value <= |s|
    decreases |s|
  {
    if s == [] then None
    else if s[0] == QUOTE then Some(1)
    else
      var skipped := if s[0] == BACKSLASH then 2 else 1;
      if |s| < skipped then None
      else
        match StringRest(s[skipped..])
        case None => None
        case Some(n) => Some(n + skipped)
  }

  /** The string token `s` starts with, decoded, and what follows it. */
  function ParseString(s: bytes): (r: Option<(string, bytes)>)
    ensures r.Some? ==> |r.value.1| < |s|
  {
    if s == [] || s[0] != QUOTE then None
    else
      match StringRest(s[1..])
      case None => None
      case Some(n) =>
        match DecodeString(s[..n + 1])
        case None => None
        case Some(text) => Some((text, s[n + 1..]))
  }

  /** The value `s` starts with, and what follows it. */
  function ParseValue(s: bytes): (r: Option<(Json, bytes)>)
    ensures r.Some? ==> |r.value.1| < |s|
    decreases |s|, 0
  {
    if s == [] then None
    else if s[0] == QUOTE then
      (match ParseString(s)
       case None => None
       case Some((text, rest)) => Some((JString(text), rest)))
    else if s[0] == '[' then
      var t := SkipWhite(s[1..]);
      if t != [] && t[0] == ']' then Some((JArray([]), t[1..]))
      else
        (match ParseItems(t)
         case None => None
         case Some((items, rest)) => Some((JArray(items), rest)))
    else if s[0] == '{' then
      var t := SkipWhite(s[1..]);
      if t != [] && t[0] == '}' then Some((JObject([]), t[1..]))
      else
        (match ParseMembers(t)
         case None => None
         case Some((members, rest)) => Some((JObject(members), rest)))
    else if "null" <= s then Some((JNull, s[4..]))
    else
      var n := WordLength(s);
      match ParseNumber(s[..n])
      case None => None
      case Some(number) => if n == 0 then None else Some((JNumber(number), s[n..]))
  }

  /** The items of an array, from its first to its closing bracket. */
  function ParseItems(s: bytes): (r: Option<(seq<Json>, bytes)>)
    ensures r.Some? ==> |r.value.1| < |s|
    decreases |s|, 1
  {
    match ParseValue(s)
    case None => None
    case Some((first, rest)) =>
      var t := SkipWhite(rest);
      if t == [] then None
      else if t[0] == ']' then Some(([first], t[1..]))
      else if t[0] != ',' then None
      else
        match ParseItems(SkipWhite(t[1..]))
        case None => None
        case Some((others, end)) => Some(([first] + others, end))
  }

  function ParseMember(s: bytes): (r: Option<(Member, bytes)>)
    ensures r.Some? ==> |r.value.1| < |s|
    decreases |s|, 1
  {
    match ParseString(s)
    case None => None
    case Some((name, rest)) =>
      var t := SkipWhite(rest);
      if t == [] || t[0] != ':' then None
      else
        match ParseValue(SkipWhite(t[1..]))
        case None => None
        case Some((value, end)) => Some((Member(name, value), end))
  }

  function ParseMembers(s: bytes): (r: Option<(seq<Member>, bytes)>)
    ensures r.Some? ==> |r.value.1| < |s|
    decreases |s|, 2
  {
    match ParseMember(s)
    case None => None
    case Some((first, rest)) =>
      var t := SkipWhite(rest);
      if t == [] then None
      else if t[0] == '}' then Some(([first], t[1..]))
      else if t[0] != ',' then None
      else
        match ParseMembers(SkipWhite(t[1..]))
        case None => None
        case Some((others, end)) => Some(([first] + others, end))
  }

  /** A whole document: one value and nothing behind it but white space. */
  function Parse(doc: bytes): Option<Json> {
    match ParseValue(SkipWhite(doc))
    case None => None
    case Some((value, rest)) => if SkipWhite(rest) == [] then Some(value) else None
  }

  // ---- Strings read back ----

  lemma {:induction false} PlainRest(d: bytes, tail: bytes)
    requires QUOTE !in d && BACKSLASH !in d && StringRest(tail).Some?
    ensures StringRest(d + tail) == Some(|d| + StringRest(tail).value)
  {
    if d == [] {
      assert d + tail == tail;
    } else {
      PlainRest(d[1..], tail);
      DropAppend(d, tail, 1);
    }
  }

  lemma SkipsEscape(s: bytes)
    requires |s| >= 2 && s[0] == BACKSLASH && StringRest(s[2..]).Some?
    ensures StringRest(s) == Some(2 + StringRest(s[2..]).value)
  {
  }

  lemma EscapeRest(d: bytes, tail: bytes)
    requires |d| >= 2 && d[0] == BACKSLASH && QUOTE !in d[2..] && BACKSLASH !in d[2..] && StringRest(tail).Some?
    ensures StringRest(d + tail) == Some(|d| + StringRest(tail).value)
  {
    hide StringRest;
    DropAppend(d, tail, 2);
    PlainRest(d[2..], tail);
    SkipsEscape(d + tail);
  }

  lemma UnicodeRest(n: nat, tail: bytes)
    requires n < 0x10000 && StringRest(tail).Some?
    ensures StringRest(UnicodeEscape(n) + tail) == Some(|UnicodeEscape(n)| + StringRest(tail).value)
  {
    HexRoundTrip(n / 4096);
    HexRoundTrip(n / 256 % 16);
    HexRoundTrip(n / 16 % 16);
    HexRoundTrip(n % 16);
    hide HexDigit, StringRest;
    EscapeRest(UnicodeEscape(n), tail);
  }

  /** A character is written plainly, as a short escape, as one `\u` escape or as two. */
  lemma CharForms(c: char)
    ensures var e := EncodeChar(c);
            || (QUOTE !in e && BACKSLASH !in e)
            || (|e| == 2 && e[0] == BACKSLASH)
            || (c as int < 0x10000 && e == UnicodeEscape(c as int))
            || (c as int >= 0x10000
                && e == UnicodeEscape(0xd800 + (c as int - 0x10000) / 1024)
                        + UnicodeEscape(0xdc00 + (c as int - 0x10000) % 1024))
  {
    hide UnicodeEscape;
  }

  lemma PairRest(high: nat, low: nat, tail: bytes)
    requires high < 0x10000 && low < 0x10000 && StringRest(tail).Some?
    ensures StringRest(UnicodeEscape(high) + UnicodeEscape(low) + tail) ==
            Some(|UnicodeEscape(high) + UnicodeEscape(low)| + StringRest(tail).value)
  {
    hide StringRest, UnicodeEscape;
    UnicodeRest(low, tail);
    UnicodeRest(high, UnicodeEscape(low) + tail);
    Assoc(UnicodeEscape(high), UnicodeEscape(low), tail);
  }

  lemma CharRest(c: char, tail: bytes)
    requires StringRest(tail).Some?
    ensures StringRest(EncodeChar(c) + tail) == Some(|EncodeChar(c)| + StringRest(tail).value)
  {
    var e := EncodeChar(c);
    CharForms(c);
    hide StringRest, EncodeChar, UnicodeEscape;
    if QUOTE !in e && BACKSLASH !in e {
      PlainRest(e, tail);
    } else if |e| == 2 && e[0] == BACKSLASH {
      EscapeRest(e, tail);
    } else if c as int < 0x10000 {
      UnicodeRest(c as int, tail);
    } else {
      PairRest(0xd800 + (c as int - 0x10000) / 1024, 0xdc00 + (c as int - 0x10000) % 1024, tail);
    }
  }

  lemma {:induction false} BodyRest(s: string, tail: bytes)
    requires StringRest(tail).Some?
    ensures StringRest(EncodeBody(s) + tail) == Some(|EncodeBody(s)| + StringRest(tail).value)
  {
    hide StringRest;
    if s == [] {
      assert EncodeBody(s) + tail == tail;
    } else {
      BodyRest(s[1..], tail);
      CharRest(s[0], EncodeBody(s[1..]) + tail);
      Assoc(EncodeChar(s[0]), EncodeBody(s[1..]), tail);
    }
  }

  lemma TokenText(s: string, rest: bytes)
    ensures var token := EncodeString(s);
            && (token + rest)[1..] == EncodeBody(s) + ([QUOTE] + rest)
            && (token + rest)[..|token|] == token && (token + rest)[|token|..] == rest
            && |token| == |EncodeBody(s)| + 2 && token[0] == QUOTE
  {
    hide EncodeBody;
  }

  lemma StringParses(s: string, rest: bytes)
    ensures ParseString(EncodeString(s) + rest) == Some((s, rest))
  {
    ClosingQuote(rest);
    hide StringRest, EncodeBody, EncodeString, DecodeString;
    BodyRest(s, [QUOTE] + rest);
    TokenText(s, rest);
    StringRoundTrip(s);
  }

  lemma ClosingQuote(rest: bytes)
    ensures StringRest([QUOTE] + rest) == Some(1)
  {
  }

  // ---- Values read back ----

  /** A value's text starts with a byte that is neither white space nor a closing bracket. */
  predicate StartsValue(s: bytes) {
    s != [] && s[0] != ' ' && s[0] != '\t' && s[0] != '\n' && s[0] != '\r' && s[0] != ']' && s[0] != '}'
  }

  lemma PrintStarts(j: Json)
    requires IsJson(j)
    ensures StartsValue(Print(j))
  {
    match j
    case JNull =>
    case JNumber(n) =>
      NumberTextHasNoQuote(n);
      assert n.Finite? ==> NumberByte(n.text[0]);
    case JString(_) =>
    case JArray(_) =>
    case JObject(_) =>
  }

  lemma SkipNothing(s: bytes, rest: bytes)
    requires StartsValue(s)
    ensures SkipWhite(s + rest) == s + rest
  {
  }

  /** Nothing that could go on with a number follows. */
  predicate Ends(rest: bytes) {
    rest == [] || !WordByte(rest[0])
  }

  lemma NumberValueParses(n: Number, rest: bytes)
    requires IsNumber(n) && Ends(rest)
    ensures ParseValue(EncodeNumber(n) + rest) == Some((JNumber(n), rest))
  {
    var word := EncodeNumber(n);
    NumberTextHasNoQuote(n);
    WordParses(n, rest);
    assert (word + rest)[|word|..] == rest;
    assert n.Finite? ==> NumberByte(n.text[0]);
    assert (word + rest)[0] == word[0];
    hide ParseNumber, WordLength, ParseString, ParseItems, ParseMembers, EncodeString;
    NotNull(word + rest);
  }

  lemma NotNull(s: bytes)
    requires s != [] && s[0] != 'n'
    ensures !("null" <= s)
  {
    assert "null"[0] == 'n';
  }

  lemma WordParses(n: Number, rest: bytes)
    requires IsNumber(n) && Ends(rest)
    ensures WordLength(EncodeNumber(n) + rest) == |EncodeNumber(n)| > 0
    ensures ParseNumber((EncodeNumber(n) + rest)[..|EncodeNumber(n)|]) == Some(n)
  {
    if rest == [] {
      NumberParses(n, " ");
      WordAlone(EncodeNumber(n));
      NothingAfter(EncodeNumber(n));
      assert (EncodeNumber(n) + rest)[..|EncodeNumber(n)|] == EncodeNumber(n);
    } else {
      NumberParses(n, rest);
    }
  }

  lemma {:induction false} WordAlone(word: bytes)
    requires WordLength(word + " ") == |word|
    ensures WordLength(word) == |word|
  {
    if word != [] {
      assert (word + " ")[1..] == word[1..] + " ";
      WordAlone(word[1..]);
    }
  }

  lemma AfterPunctuation(punctuation: bytes, s: bytes)
    requires |punctuation| == 2 && punctuation[1] == ' ' && SkipWhite(s) == s
    ensures (punctuation + s)[0] == punctuation[0] && SkipWhite((punctuation + s)[1..]) == s
  {
    assert (punctuation + s)[1..] == " " + s;
    assert (" " + s)[1..] == s;
  }

  lemma {:induction false} PrintParses(j: Json, rest: bytes)
    requires IsJson(j) && Ends(rest)
    ensures ParseValue(Print(j) + rest) == Some((j, rest))
    decreases j, 1
  {
    match j
    case JNull =>
      assert ("null" + rest)[4..] == rest && "null" <= "null" + rest;
    case JNumber(n) =>
      NumberValueParses(n, rest);
    case JString(s) =>
      hide EncodeString, ParseString;
      StringParses(s, rest);
      assert (EncodeString(s) + rest)[0] == QUOTE by { QuoteStarts(s, rest); }
    case JArray(items) =>
      ArrayParses(items, rest);
    case JObject(members) =>
      ObjectParses(members, rest);
  }

  lemma QuoteStarts(s: string, rest: bytes)
    ensures EncodeString(s) + rest != [] && (EncodeString(s) + rest)[0] == QUOTE
  {
  }

  /** What a reader finds behind an opening bracket decides the value. */
  lemma OpensArray(inside: bytes, items: seq<Json>, rest: bytes)
    requires StartsValue(inside) && ParseItems(inside) == Some((items, rest))
    ensures ParseValue("[" + inside) == Some((JArray(items), rest))
  {
    Behind("[", inside);
    SkipNothing(inside, []);
    NothingAfter(inside);
    hide ParseItems, ParseMembers, ParseString, SkipWhite, ParseNumber, WordLength;
  }

  lemma OpensObject(inside: bytes, members: seq<Member>, rest: bytes)
    requires StartsValue(inside) && ParseMembers(inside) == Some((members, rest))
    ensures ParseValue("{" + inside) == Some((JObject(members), rest))
  {
    Behind("{", inside);
    SkipNothing(inside, []);
    NothingAfter(inside);
    hide ParseItems, ParseMembers, ParseString, SkipWhite, ParseNumber, WordLength;
  }

  lemma Behind(bracket: bytes, inside: bytes)
    requires |bracket| == 1
    ensures (bracket + inside)[0] == bracket[0] && (bracket + inside)[1..] == inside
  {
  }

  lemma EmptyParses(rest: bytes)
    ensures ParseValue("[]" + rest) == Some((JArray([]), rest)) && ParseValue("{}" + rest) == Some((JObject([]), rest))
  {
    assert ("[]" + rest)[1..] == "]" + rest && ("]" + rest)[1..] == rest;
    assert ("{}" + rest)[1..] == "}" + rest && ("}" + rest)[1..] == rest;
  }

  lemma {:induction false} ArrayParses(items: seq<Json>, rest: bytes)
    requires forall i :: 0 <= i < |items| ==> IsJson(items[i])
    ensures ParseValue(Print(JArray(items)) + rest) == Some((JArray(items), rest))
    decreases items, 1
  {
    hide ParseValue, ParseItems;
    if items == [] {
      EmptyParses(rest);
      assert Print(JArray([])) == "[]";
    } else {
      var inside := PrintItems(items) + ("]" + rest);
      ItemsStart(items);
      ItemsParse(items, rest);
      assert Print(JArray(items)) == "[" + PrintItems(items) + "]";
      hide Print, PrintItems;
      Grouped("[", PrintItems(items), "]", rest);
      OpensArray(inside, items, rest);
    }
  }

  lemma ItemsStart(items: seq<Json>)
    requires items != [] && IsJson(items[0])
    ensures StartsValue(PrintItems(items))
  {
    PrintStarts(items[0]);
  }

  lemma Closes(bracket: byte, rest: bytes)
    requires bracket == ']' || bracket == '}'
    ensures SkipWhite([bracket] + rest) == [bracket] + rest && ([bracket] + rest)[1..] == rest
  {
  }

  lemma LastItem(s: bytes, first: Json, rest: bytes)
    requires ParseValue(s) == Some((first, [']'] + rest))
    ensures ParseItems(s) == Some(([first], rest))
  {
    hide ParseValue, SkipWhite;
    Closes(']', rest);
  }

  lemma NextItem(s: bytes, first: Json, tail: bytes, others: seq<Json>, end: bytes)
    requires ParseValue(s) == Some((first, ", " + tail)) && SkipWhite(tail) == tail
    requires ParseItems(tail) == Some((others, end))
    ensures ParseItems(s) == Some(([first] + others, end))
  {
    SkipComma(tail);
    AfterPunctuation(", ", tail);
    hide ParseValue, SkipWhite;
  }

  lemma SkipComma(tail: bytes)
    ensures SkipWhite(", " + tail) == ", " + tail && SkipWhite(": " + tail) == ": " + tail
  {
  }

  lemma Grouped(a: bytes, b: bytes, c: bytes, d: bytes)
    ensures a + b + c + d == a + (b + (c + d))
  {
  }

  lemma ItemsText(items: seq<Json>, end: bytes)
    requires |items| > 1
    ensures PrintItems(items) + end == Print(items[0]) + (", " + (PrintItems(items[1..]) + end))
    ensures items == [items[0]] + items[1..]
  {
    assert PrintItems(items) == Print(items[0]) + ", " + PrintItems(items[1..]);
    hide PrintItems, Print;
    Grouped(Print(items[0]), ", ", PrintItems(items[1..]), end);
  }

  lemma {:induction false} ItemsParse(items: seq<Json>, rest: bytes)
    requires items != [] && forall i :: 0 <= i < |items| ==> IsJson(items[i])
    ensures ParseItems(PrintItems(items) + ("]" + rest)) == Some((items, rest))
    decreases items, 0
  {
    hide ParseItems, ParseValue, SkipWhite, Print;
    if |items| == 1 {
      PrintParses(items[0], "]" + rest);
      LastItem(Print(items[0]) + ("]" + rest), items[0], rest);
      assert items == [items[0]];
    } else {
      var others := PrintItems(items[1..]) + ("]" + rest);
      ItemsParse(items[1..], rest);
      ItemsStart(items[1..]);
      SkipNothing(PrintItems(items[1..]), "]" + rest);
      PrintParses(items[0], ", " + others);
      ItemsText(items, "]" + rest);
      hide PrintItems;
      NextItem(Print(items[0]) + (", " + others), items[0], others, items[1..], rest);
    }
  }

  lemma {:induction false} ObjectParses(members: seq<Member>, rest: bytes)
    requires forall i :: 0 <= i < |members| ==> IsJson(members[i].value)
    ensures ParseValue(Print(JObject(members)) + rest) == Some((JObject(members), rest))
    decreases members, 1
  {
    hide ParseValue, ParseMembers;
    if members == [] {
      EmptyParses(rest);
      assert Print(JObject([])) == "{}";
    } else {
      var inside := PrintMembers(members) + ("}" + rest);
      MembersStart(members);
      MembersParse(members, rest);
      assert Print(JObject(members)) == "{" + PrintMembers(members) + "}";
      hide Print, PrintMembers;
      Grouped("{", PrintMembers(members), "}", rest);
      OpensObject(inside, members, rest);
    }
  }

  lemma MembersStart(members: seq<Member>)
    requires members != []
    ensures StartsValue(PrintMembers(members))
  {
  }

  lemma OneMember(s: bytes, name: string, tail: bytes, value: Json, end: bytes)
    requires ParseString(s) == Some((name, ": " + tail)) && SkipWhite(tail) == tail
    requires ParseValue(tail) == Some((value, end))
    ensures ParseMember(s) == Some((Member(name, value), end))
  {
    SkipComma(tail);
    AfterPunctuation(": ", tail);
    hide ParseValue, ParseString, SkipWhite;
  }

  lemma MemberTextAnd(member: Member, rest: bytes)
    ensures PrintMember(member) + rest == EncodeString(member.name) + (": " + (Print(member.value) + rest))
  {
    hide EncodeString, Print;
    Grouped(EncodeString(member.name), ": ", Print(member.value), rest);
  }

  lemma {:induction false} MemberParses(member: Member, rest: bytes)
    requires IsJson(member.value) && Ends(rest)
    ensures ParseMember(PrintMember(member) + rest) == Some((member, rest))
    decreases member, 0
  {
    hide ParseValue, ParseString, ParseMember, Print, PrintMember, EncodeString, SkipWhite;
    var value := Print(member.value) + rest;
    PrintParses(member.value, rest);
    PrintStarts(member.value);
    SkipNothing(Print(member.value), rest);
    StringParses(member.name, ": " + value);
    MemberTextAnd(member, rest);
    OneMember(EncodeString(member.name) + (": " + value), member.name, value, member.value, rest);
  }

  lemma LastMember(s: bytes, first: Member, rest: bytes)
    requires ParseMember(s) == Some((first, ['}'] + rest))
    ensures ParseMembers(s) == Some(([first], rest))
  {
    hide ParseMember, SkipWhite;
    Closes('}', rest);
  }

  lemma NextMember(s: bytes, first: Member, tail: bytes, others: seq<Member>, end: bytes)
    requires ParseMember(s) == Some((first, ", " + tail)) && SkipWhite(tail) == tail
    requires ParseMembers(tail) == Some((others, end))
    ensures ParseMembers(s) == Some(([first] + others, end))
  {
    SkipComma(tail);
    AfterPunctuation(", ", tail);
    hide ParseMember, SkipWhite;
  }

  lemma MembersText(members: seq<Member>, end: bytes)
    requires |members| > 1
    ensures PrintMembers(members) + end == PrintMember(members[0]) + (", " + (PrintMembers(members[1..]) + end))
    ensures members == [members[0]] + members[1..]
  {
    assert PrintMembers(members) == PrintMember(members[0]) + ", " + PrintMembers(members[1..]);
    hide PrintMembers, PrintMember;
    Grouped(PrintMember(members[0]), ", ", PrintMembers(members[1..]), end);
  }

  lemma {:induction false} MembersParse(members: seq<Member>, rest: bytes)
    requires members != [] && forall i :: 0 <= i < |members| ==> IsJson(members[i].value)
    ensures ParseMembers(PrintMembers(members) + ("}" + rest)) == Some((members, rest))
    decreases members, 0
  {
    hide ParseMembers, ParseMember, SkipWhite, PrintMember;
    if |members| == 1 {
      MemberParses(members[0], "}" + rest);
      LastMember(PrintMember(members[0]) + ("}" + rest), members[0], rest);
      assert members == [members[0]];
    } else {
      var others := PrintMembers(members[1..]) + ("}" + rest);
      MembersParse(members[1..], rest);
      MembersStart(members[1..]);
      SkipNothing(PrintMembers(members[1..]), "}" + rest);
      MemberParses(members[0], ", " + others);
      MembersText(members, "}" + rest);
      hide PrintMembers;
      NextMember(PrintMember(members[0]) + (", " + others), members[0], others, members[1..], rest);
    }
  }

  /** Every JSON value reads back from its text. */
  lemma ParsePrinted(j: Json)
    requires IsJson(j)
    ensures Parse(Print(j)) == Some(j)
  {
    NothingAfter(Print(j));
    PrintStarts(j);
    SkipNothing(Print(j), []);
    hide ParseValue, Print;
    PrintParses(j, []);
  }
}
