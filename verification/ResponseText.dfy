/** What the response to a written result says, as one JSON value. */
module ResponseText {
  import opened Bytes
  import opened Sequences
  import opened Splitter
  import opened JsonText
  import opened Printer
  import opened PassThrough

  // ---- The same value with null for each number JSON does not have ----

  function NulledJson(j: Json): (n: Json)
    decreases j, 1
  {
    match j
    case JNull => JNull
    case JNumber(n) => if n.Finite? then j else JNull
    case JString(_) => j
    case JArray(items) => JArray(NulledItems(items))
    case JObject(members) => JObject(NulledMembers(members))
  }

  function NulledItems(items: seq<Json>): (n: seq<Json>)
    ensures |n| == |items|
    decreases items, 0
  {
    if items == [] then [] else [NulledJson(items[0])] + NulledItems(items[1..])
  }

  function NulledMembers(members: seq<Member>): (n: seq<Member>)
    ensures |n| == |members|
    decreases members, 0
  {
    if members == [] then []
    else [Member(members[0].name, NulledJson(members[0].value))] + NulledMembers(members[1..])
  }

  // ---- Cutting runs between their pieces ----

  lemma CutBeforeToken(d: bytes, y: bytes, token: bytes)
    requires d != [] && y != [] && !NonFiniteByte(y[0]) && AllNonFinite(token)
    ensures token <= d + y <==> token <= d
  {
    assert (d + y)[|d|] == y[0];
    if |d| < |token| {
      assert NonFiniteByte(token[|d|]);
    } else {
      assert (d + y)[..|token|] == d[..|token|];
    }
  }

  /** Cutting before a byte of no token cuts no token either. */
  lemma {:induction false} NullsOfSplitsBefore(d: bytes, y: bytes)
    requires y != [] && !NonFiniteByte(y[0])
    ensures NullsOf(d + y) == NullsOf(d) + NullsOf(y)
  {
    if d == [] {
      assert d + y == y;
    } else {
      CutBeforeToken(d, y, MINUS_INFINITY);
      CutBeforeToken(d, y, INFINITY);
      CutBeforeToken(d, y, NAN);
      var n := TokenLength(d);
      if n > 0 {
        NullsOfSplitsBefore(d[n..], y);
        DropAppend(d, y, n);
        Assoc(NULL, NullsOf(d[n..]), NullsOf(y));
      } else {
        NullsOfSplitsBefore(d[1..], y);
        DropAppend(d, y, 1);
        Assoc([d[0]], NullsOf(d[1..]), NullsOf(y));
      }
    }
  }

  /** No token can lie across the cut between these two texts. */
  predicate CutsClean(a: bytes, b: bytes) {
    a == [] || b == [] || !NonFiniteByte(a[|a| - 1]) || !NonFiniteByte(b[0])
  }

  lemma NullsOfClean(a: bytes, b: bytes)
    requires CutsClean(a, b)
    ensures NullsOf(a + b) == NullsOf(a) + NullsOf(b)
  {
    if b == [] {
      NothingAfter(a);
      NothingAfter(NullsOf(a));
    } else if a == [] || !NonFiniteByte(a[|a| - 1]) {
      NullsOfSplits(a, b);
    } else {
      NullsOfSplitsBefore(a, b);
    }
  }

  /** No token lies across two adjacent runs, none of which is empty. */
  ghost predicate IsClean(pieces: seq<Piece>) {
    && (forall i :: 0 <= i < |pieces| ==> pieces[i].text != [])
    && forall i :: 0 <= i < |pieces| - 1 && pieces[i].Run? && pieces[i + 1].Run? ==>
         CutsClean(pieces[i].text, pieces[i + 1].text)
  }

  /** What the merged pieces end with is what the pieces end with. */
  lemma {:induction false} MergeEnds(pieces: seq<Piece>)
    requires IsClean(pieces) && pieces != []
    ensures var tokens, last := Merge(pieces), pieces[|pieces| - 1];
            && tokens != [] && tokens[|tokens| - 1].text != []
            && (tokens[|tokens| - 1].Run? <==> last.Run?)
            && tokens[|tokens| - 1].text[|tokens[|tokens| - 1].text| - 1] == last.text[|last.text| - 1]
  {
    var front := pieces[..|pieces| - 1];
    if front != [] {
      MergeEnds(front);
    }
  }

  /** Replacing in the merged runs is replacing in each piece. */
  lemma {:induction false} NulledMerge(pieces: seq<Piece>)
    requires IsClean(pieces)
    ensures Concat(Nulled(Merge(pieces))) == Concat(Nulled(pieces))
  {
    if pieces != [] {
      var front, last := pieces[..|pieces| - 1], pieces[|pieces| - 1];
      NulledMerge(front);
      Unsnoc(pieces);
      NulledSnoc(front, last);
      hide Nulled, Concat;
      if front != [] && last.Run? && front[|front| - 1].Run? {
        MergeEnds(front);
        var tokens := Merge(front);
        var before, end := tokens[..|tokens| - 1], tokens[|tokens| - 1];
        Unsnoc(tokens);
        NulledSnoc(before, end);
        NulledSnoc(before, Run(end.text + last.text));
        assert CutsClean(front[|front| - 1].text, last.text);
        NullsOfClean(end.text, last.text);
        Assoc(Concat(Nulled(before)), NullsOf(end.text), NullsOf(last.text));
      } else {
        if front != [] {
          MergeEnds(front);
        }
        NulledSnoc(Merge(front), last);
      }
    }
  }

  // ---- Printed values ----

  lemma CleanAround(a: seq<Piece>, punctuation: bytes, b: seq<Piece>)
    requires IsClean(a) && IsClean(b) && punctuation != []
    requires !NonFiniteByte(punctuation[0]) && !NonFiniteByte(punctuation[|punctuation| - 1])
    ensures IsClean(a + [Run(punctuation)] + b)
  {
    var pieces := a + [Run(punctuation)] + b;
    forall i | 0 <= i < |pieces| - 1 && pieces[i].Run? && pieces[i + 1].Run?
      ensures CutsClean(pieces[i].text, pieces[i + 1].text)
    {
      if i < |a| - 1 {
        assert pieces[i] == a[i] && pieces[i + 1] == a[i + 1];
      } else if i > |a| {
        assert pieces[i] == b[i - |a| - 1] && pieces[i + 1] == b[i - |a|];
      }
    }
  }

  lemma BeginsWith(token: bytes, k: nat, s: bytes)
    requires k < |token| && token <= s
    ensures token[k] in s
  {
    assert s[k] == token[k];
  }

  /** No token starts where these bytes do not occur. */
  lemma NoTokenHere(s: bytes)
    requires 'I' !in s && 'N' !in s
    ensures TokenLength(s) == 0
  {
    if MINUS_INFINITY <= s {
      BeginsWith(MINUS_INFINITY, 1, s);
    } else if INFINITY <= s {
      BeginsWith(INFINITY, 0, s);
    } else if NAN <= s {
      BeginsWith(NAN, 0, s);
    }
  }

  /** Text without the bytes tokens start with holds none. */
  lemma PlainHasNoTokens(text: bytes)
    requires 'I' !in text && 'N' !in text
    ensures NullsOf(text) == text
  {
    hide TokenLength, NullsOf;
    forall i | 0 <= i <= |text| ensures TokenLength(text[i..]) == 0 {
      NoTokenHere(text[i..]);
    }
    NullsOfNothing(text);
  }

  /** The three names the writer has for other numbers are the tokens that are replaced. */
  lemma NullsOfNumber(n: Number)
    requires IsNumber(n)
    ensures NullsOf(EncodeNumber(n)) == if n.Finite? then EncodeNumber(n) else "null"
  {
    if n.Finite? {
      PlainHasNoTokens(n.text);
    } else {
      var text := EncodeNumber(n);
      assert TokenLength(text) == |text|;
      assert text[|text|..] == [];
    }
  }

  /** The pieces of a value are clean, and replacing in each gives the value with nulls. */
  ghost predicate IsNulled(pieces: seq<Piece>, text: bytes) {
    IsClean(pieces) && Concat(Nulled(pieces)) == text
  }

  lemma NulledJoin(a: seq<Piece>, x: bytes, punctuation: bytes, b: seq<Piece>, y: bytes)
    requires IsNulled(a, x) && IsNulled(b, y) && punctuation != []
    requires !NonFiniteByte(punctuation[0]) && !NonFiniteByte(punctuation[|punctuation| - 1])
    requires NullsOf(punctuation) == punctuation
    ensures IsNulled(a + [Run(punctuation)] + b, x + punctuation + y)
  {
    CleanAround(a, punctuation, b);
    NulledSnoc(a, Run(punctuation));
    NulledAppend(a + [Run(punctuation)], b);
  }

  lemma NulledAppend(a: seq<Piece>, b: seq<Piece>)
    ensures Concat(Nulled(a + b)) == Concat(Nulled(a)) + Concat(Nulled(b))
  {
    assert Nulled(a + b) == Nulled(a) + Nulled(b);
    ConcatAppend(Nulled(a), Nulled(b));
  }

  lemma NothingNulled()
    ensures IsNulled([], [])
  {
  }

  lemma PieceNulled(piece: Piece)
    requires piece.text != []
    ensures IsNulled([piece], NulledPiece(piece).text)
  {
    NulledSnoc([], piece);
    assert [] + [piece] == [piece];
  }

  lemma StringNulled(s: string)
    ensures IsNulled([Str(EncodeString(s))], EncodeString(s))
  {
    PieceNulled(Str(EncodeString(s)));
  }

  /** A value between brackets. */
  lemma NulledBetween(opening: bytes, a: seq<Piece>, x: bytes, closing: bytes)
    requires IsNulled(a, x) && |opening| == |closing| == 1
    requires !NonFiniteByte(opening[0]) && !NonFiniteByte(closing[0])
    ensures IsNulled([Run(opening)] + a + [Run(closing)], opening + x + closing)
  {
    NothingNulled();
    PlainHasNoTokens(opening);
    PlainHasNoTokens(closing);
    NulledJoin([], [], opening, a, x);
    assert [] + [Run(opening)] + a == [Run(opening)] + a && [] + opening + x == opening + x;
    NulledJoin([Run(opening)] + a, opening + x, closing, [], []);
    NothingAfter([Run(opening)] + a + [Run(closing)]);
    NothingAfter(opening + x + closing);
  }

  lemma {:induction false} ValueNulled(j: Json)
    requires IsJson(j)
    ensures IsNulled(TextPieces(j), Print(NulledJson(j)))
    decreases j, 1
  {
    hide IsNulled, NonFiniteByte, NullsOf, EncodeString;
    match j
    case JNull =>
      PlainHasNoTokens("null");
      PieceNulled(Run("null"));
    case JNumber(n) =>
      NumberTextHasNoQuote(n);
      NullsOfNumber(n);
      PieceNulled(Run(EncodeNumber(n)));
    case JString(s) =>
      StringNulled(s);
    case JArray(items) =>
      ItemsNulled(items);
      Brackets();
      NulledBetween("[", ItemPieces(items), PrintItems(NulledItems(items)), "]");
    case JObject(members) =>
      MembersNulled(members);
      Brackets();
      NulledBetween("{", MemberPieces(members), PrintMembers(NulledMembers(members)), "}");
  }

  lemma Brackets()
    ensures !NonFiniteByte('[') && !NonFiniteByte(']') && !NonFiniteByte('{') && !NonFiniteByte('}')
    ensures !NonFiniteByte(',') && !NonFiniteByte(':') && !NonFiniteByte(' ')
    ensures NullsOf(", ") == ", " && NullsOf(": ") == ": "
  {
    hide NullsOf;
    PlainHasNoTokens(", ");
    PlainHasNoTokens(": ");
  }

  lemma {:induction false} ItemsNulled(items: seq<Json>)
    requires forall i :: 0 <= i < |items| ==> IsJson(items[i])
    ensures IsNulled(ItemPieces(items), PrintItems(NulledItems(items)))
    decreases items, 0
  {
    hide IsNulled, NonFiniteByte, NullsOf;
    if items == [] {
      NothingNulled();
    } else {
      ValueNulled(items[0]);
      if |items| > 1 {
        ItemsNulled(items[1..]);
        Brackets();
        NulledJoin(TextPieces(items[0]), Print(NulledJson(items[0])), ", ", ItemPieces(items[1..]),
            PrintItems(NulledItems(items[1..])));
        assert NulledItems(items)[1..] == NulledItems(items[1..]);
      } else {
        assert NulledItems(items[1..]) == [] && NulledItems(items) == [NulledJson(items[0])];
      }
    }
  }

  lemma {:induction false} MemberNulled(member: Member)
    requires IsJson(member.value)
    ensures IsNulled(MemberPiece(member), PrintMember(Member(member.name, NulledJson(member.value))))
    decreases member, 0
  {
    hide IsNulled, NonFiniteByte, NullsOf, EncodeString;
    ValueNulled(member.value);
    StringNulled(member.name);
    Brackets();
    NulledJoin([Str(EncodeString(member.name))], EncodeString(member.name), ": ", TextPieces(member.value),
        Print(NulledJson(member.value)));
    assert KeyPieces(member.name) == [Str(EncodeString(member.name))] + [Run(": ")];
  }

  lemma {:induction false} MembersNulled(members: seq<Member>)
    requires forall i :: 0 <= i < |members| ==> IsJson(members[i].value)
    ensures IsNulled(MemberPieces(members), PrintMembers(NulledMembers(members)))
    decreases members, 0
  {
    hide IsNulled, NonFiniteByte, NullsOf, EncodeString;
    if members == [] {
      NothingNulled();
    } else {
      var first := Member(members[0].name, NulledJson(members[0].value));
      MemberNulled(members[0]);
      if |members| > 1 {
        MembersNulled(members[1..]);
        Brackets();
        NulledJoin(MemberPiece(members[0]), PrintMember(first), ", ", MemberPieces(members[1..]),
            PrintMembers(NulledMembers(members[1..])));
        assert NulledMembers(members)[1..] == NulledMembers(members[1..]);
      } else {
        assert NulledMembers(members[1..]) == [] && NulledMembers(members) == [first];
      }
    }
  }

  /** Replacing the tokens in a printed value prints the value with null for each number JSON does not have. */
  lemma NulledPrint(j: Json)
    requires IsJson(j)
    ensures NulledDocument(Print(j)) == Print(NulledJson(j))
  {
    SplitOfPrinted(j);
    ValueNulled(j);
    hide Print, TextPieces, NulledJson;
    NulledMerge(TextPieces(j));
    NothingAfter(Print(NulledJson(j)));
  }

  // ---- The response ----

  /** `ApiResponse(data=..., error_code=0)` */
  function Response(data: Json): Json {
    JObject([Member("data", data), Member("error_code", JNumber(Finite("0")))])
  }

  lemma DataKey()
    ensures RESPONSE_PREFIX == "{" + (EncodeString("data") + ": ")
  {
    EncodePlain("data");
    assert "{\"data\": " == "{" + ("\"" + "data" + "\"" + ": ");
  }

  lemma ErrorCodeText()
    ensures RESPONSE_SUFFIX == ", " + ("\"" + "error_code" + "\"" + ": " + "0") + "}"
  {
  }

  lemma ErrorCodeMember()
    ensures RESPONSE_SUFFIX == ", " + PrintMember(Member("error_code", JNumber(Finite("0")))) + "}"
  {
    EncodePlain("error_code");
    ErrorCodeText();
    hide EncodeBody;
    assert EncodeString("error_code") == "\"" + "error_code" + "\"";
    assert Print(JNumber(Finite("0"))) == "0";
    hide EncodeString;
  }

  lemma TwoMembers(first: Member, second: Member)
    ensures Print(JObject([first, second])) == "{" + (PrintMember(first) + ", " + PrintMember(second)) + "}"
  {
    assert [first, second][1..] == [second];
    hide PrintMember;
    assert PrintMembers([second]) == PrintMember(second);
  }

  lemma ResponsePrints(data: Json)
    ensures Print(Response(data)) == RESPONSE_PREFIX + Print(data) + RESPONSE_SUFFIX
  {
    hide EncodeString, Print, PrintMember, PrintMembers;
    var first, second := Member("data", data), Member("error_code", JNumber(Finite("0")));
    TwoMembers(first, second);
    MemberText(first);
    DataKey();
    ErrorCodeMember();
    Regrouped("{", EncodeString("data"), ": ", Print(data), ", ", PrintMember(second), "}");
  }

  lemma MemberText(member: Member)
    ensures PrintMember(member) == EncodeString(member.name) + ": " + Print(member.value)
  {
  }

  lemma Regrouped(a: bytes, b: bytes, c: bytes, d: bytes, e: bytes, f: bytes, g: bytes)
    ensures a + (b + c + d + e + f) + g == a + (b + c) + d + (e + f + g)
  {
  }

  /**
   * For every chunking of a written result, the response is one JSON object: its `data` is the
   * result with null for each number JSON does not have, its `error_code` 0.
   */
  method WriteThenRespond(result: seq<Iteration>, chunks: seq<bytes>) returns (body: seq<bytes>)
    requires IsResult(result) && Join(chunks) == Print(Payload(result))
    ensures Join(body) == Print(Response(NulledJson(Payload(result))))
  {
    PayloadIsJson(result);
    SplitOfPrinted(Payload(result));
    NulledPrint(Payload(result));
    ResponsePrints(NulledJson(Payload(result)));
    hide Print, Payload, NulledDocument;
    var complete;
    body, complete := AsApiResponse(chunks);
  }
}
