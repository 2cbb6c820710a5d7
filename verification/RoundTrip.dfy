/** What the reader makes of a document the printer wrote. */
module RoundTrip {
  import opened Options
  import opened Bytes
  import opened Sequences
  import opened Splitter
  import opened JsonText
  import opened Printer
  import opened IterationReader

  // ---- A series' text parses back ----

  lemma {:induction false} WordOf(word: bytes, rest: bytes)
    requires forall i :: 0 <= i < |word| ==> WordByte(word[i])
    requires rest != [] && !WordByte(rest[0])
    ensures WordLength(word + rest) == |word|
  {
    if word == [] {
      assert word + rest == rest;
    } else {
      WordOf(word[1..], rest);
      DropAppend(word, rest, 1);
    }
  }

  lemma NumberParses(n: Number, rest: bytes)
    requires IsNumber(n) && rest != [] && !WordByte(rest[0])
    ensures WordLength(EncodeNumber(n) + rest) == |EncodeNumber(n)| > 0
    ensures (EncodeNumber(n) + rest)[..|EncodeNumber(n)|] == EncodeNumber(n)
    ensures ParseNumber(EncodeNumber(n)) == Some(n)
  {
    WordOf(EncodeNumber(n), rest);
    if n.Finite? {
      assert NumberByte(n.text[0]);
      if |n.text| > 1 {
        assert NumberByte(n.text[1]);
      }
    }
  }

  function NumbersJson(values: Series): seq<Json> {
    seq(|values|, i requires 0 <= i < |values| => JNumber(values[i]))
  }

  lemma NumbersTail(values: Series)
    requires values != []
    ensures NumbersJson(values)[1..] == NumbersJson(values[1..])
  {
  }

  lemma PrintNumbers(values: Series)
    requires values != []
    ensures PrintItems(NumbersJson(values)) ==
            if |values| == 1 then EncodeNumber(values[0])
            else EncodeNumber(values[0]) + ", " + PrintItems(NumbersJson(values[1..]))
  {
    NumbersTail(values);
    assert NumbersJson(values)[0] == JNumber(values[0]);
  }

  lemma LastElement(n: Number, rest: bytes)
    requires IsNumber(n)
    ensures ParseElements(EncodeNumber(n) + ("]" + rest)) == Some([n])
  {
    var word, tail := EncodeNumber(n), "]" + rest;
    NumberParses(n, tail);
    assert (word + tail)[|word|..] == tail;
  }

  lemma CommaAndSpace(others: bytes)
    requires SkipWhite(others) == others
    ensures SkipWhite(", " + others) == ", " + others && SkipWhite((", " + others)[1..]) == others
  {
    var tail: bytes := ", " + others;
    assert tail[1..] == " " + others && (" " + others)[1..] == others;
  }

  lemma NextElement(n: Number, others: bytes, values: Series)
    requires IsNumber(n) && SkipWhite(others) == others && ParseElements(others) == Some(values)
    ensures ParseElements(EncodeNumber(n) + (", " + others)) == Some([n] + values)
  {
    var word, tail := EncodeNumber(n), ", " + others;
    NumberParses(n, tail);
    assert (word + tail)[|word|..] == tail;
    CommaAndSpace(others);
    hide ParseNumber, WordLength, EncodeNumber, SkipWhite, IsNumber;
  }

  lemma {:induction false} ElementsParse(values: Series, rest: bytes)
    requires values != [] && forall i :: 0 <= i < |values| ==> IsNumber(values[i])
    ensures ParseElements(PrintItems(NumbersJson(values)) + ("]" + rest)) == Some(values)
  {
    PrintNumbers(values);
    if |values| == 1 {
      LastElement(values[0], rest);
      assert values == [values[0]];
    } else {
      ElementsParse(values[1..], rest);
      FirstByte(values[1..], "]" + rest);
      var others := PrintItems(NumbersJson(values[1..]));
      NextElement(values[0], others + ("]" + rest), values[1..]);
      Assoc(EncodeNumber(values[0]) + ", ", others, "]" + rest);
      Assoc(EncodeNumber(values[0]), ", ", others + ("]" + rest));
      assert values == [values[0]] + values[1..];
    }
  }

  /** A list of numbers starts with a byte of a number. */
  lemma FirstByte(values: Series, rest: bytes)
    requires values != [] && forall i :: 0 <= i < |values| ==> IsNumber(values[i])
    ensures var text := PrintItems(NumbersJson(values)) + rest;
            text != [] && text[0] != ']' && SkipWhite(text) == text
  {
    PrintNumbers(values);
    NumberTextHasNoQuote(values[0]);
    assert WordByte(EncodeNumber(values[0])[0]);
    assert (PrintItems(NumbersJson(values)) + rest)[0] == EncodeNumber(values[0])[0];
  }

  lemma SeriesParses(values: Series, rest: bytes)
    requires forall i :: 0 <= i < |values| ==> IsNumber(values[i])
    ensures RawDecode(Print(SeriesJson(values)) + rest) == Some(List(values))
  {
    assert SeriesJson(values) == JArray(NumbersJson(values));
    var inner := PrintItems(NumbersJson(values)) + ("]" + rest);
    Enclosed(PrintItems(NumbersJson(values)), rest);
    assert ("[" + inner)[1..] == inner;
    if values == [] {
      assert inner == "]" + rest;
    } else {
      FirstByte(values, "]" + rest);
      ElementsParse(values, rest);
    }
  }

  lemma Enclosed(inner: bytes, rest: bytes)
    ensures "[" + inner + "]" + rest == "[" + (inner + ("]" + rest))
  {
  }

  // ---- Folding pieces ----

  lemma {:induction false} ReadAppend(r: Reader, a: seq<Piece>, b: seq<Piece>)
    requires r.Valid()
    ensures ReadPieces(r, a + b) ==
            match ReadPieces(r, a)
            case None => None
            case Some(before) => ReadPieces(before, b)
  {
    if b == [] {
      NothingAfter(a);
    } else {
      var front, last := b[..|b| - 1], b[|b| - 1];
      ReadAppend(r, a, front);
      Unsnoc(b);
      Assoc(a, front, [last]);
      ReadSnoc(r, a + front, last);
      if ReadPieces(r, a).Some? {
        ReadSnoc(ReadPieces(r, a).value, front, last);
      }
    }
  }

  lemma ReadOne(r: Reader, piece: Piece)
    requires r.Valid()
    ensures ReadPieces(r, [piece]) == PieceStep(r, piece)
  {
    ReadSnoc(r, [], piece);
  }

  /** Two steps of a reading, composed. */
  lemma Then(r: Reader, a: seq<Piece>, mid: Reader, b: seq<Piece>, end: Reader)
    requires r.Valid() && ReadPieces(r, a) == Some(mid) && ReadPieces(mid, b) == Some(end)
    ensures ReadPieces(r, a + b) == Some(end)
  {
    ReadAppend(r, a, b);
  }

  lemma PlainRun(r: Reader, text: bytes)
    requires r.Valid() && '{' !in text && '}' !in text
    ensures ReadPieces(r, [Run(text)]) == Some(if r.member.Some? then r.(value := r.value + text) else r)
  {
    ReadOne(r, Run(text));
    NoBraces(if r.member.Some? then r.(value := r.value + text) else r, text);
  }

  ghost predicate PlainRuns(pieces: seq<Piece>) {
    forall i :: 0 <= i < |pieces| ==> pieces[i].Run? && '{' !in pieces[i].text && '}' !in pieces[i].text
  }

  /** Runs without braces are collected as the value of the member being read. */
  lemma {:induction false} ReadPlainRuns(r: Reader, pieces: seq<Piece>)
    requires r.Valid() && PlainRuns(pieces)
    ensures ReadPieces(r, pieces) == Some(if r.member.Some? then r.(value := r.value + Concat(pieces)) else r)
  {
    if pieces == [] {
      NothingAfter(r.value);
    } else {
      var front, last := pieces[..|pieces| - 1], pieces[|pieces| - 1];
      ReadPlainRuns(r, front);
      var mid := if r.member.Some? then r.(value := r.value + Concat(front)) else r;
      PlainRun(mid, last.text);
      Assoc(r.value, Concat(front), last.text);
      Then(r, front, mid, [last], if r.member.Some? then r.(value := r.value + Concat(pieces)) else r);
      Unsnoc(pieces);
    }
  }

  lemma {:induction false} NumbersArePlain(values: Series)
    requires forall i :: 0 <= i < |values| ==> IsNumber(values[i])
    ensures PlainRuns(ItemPieces(NumbersJson(values)))
  {
    if values != [] {
      NumbersTail(values);
      NumbersArePlain(values[1..]);
      NumberTextHasNoQuote(values[0]);
    }
  }

  lemma SeriesIsPlain(values: Series)
    requires forall i :: 0 <= i < |values| ==> IsNumber(values[i])
    ensures PlainRuns(TextPieces(SeriesJson(values))) && Concat(TextPieces(SeriesJson(values))) ==
        Print(SeriesJson(values))
  {
    NumbersArePlain(values);
    assert SeriesJson(values) == JArray(NumbersJson(values));
    forall i | 0 <= i < |values| ensures IsJson(JNumber(values[i])) {}
    TextPiecesOfValue(SeriesJson(values));
  }

  // ---- Everything below an iteration is skipped ----

  /** At depth three and below, no value leaves a trace, whatever its strings hold. */
  lemma {:induction false} ReadDeep(r: Reader, j: Json)
    requires r.Valid() && r.member == None && r.depth >= 3 && IsJson(j)
    ensures ReadPieces(r, TextPieces(j)) == Some(r)
    decreases j, 1
  {
    hide ReadPieces, ItemPieces, MemberPieces, EncodeString, EncodeNumber, NumberByte;
    match j
    case JNull =>
      PlainRun(r, "null");
    case JNumber(n) =>
      NumberTextHasNoQuote(n);
      PlainRun(r, EncodeNumber(n));
    case JString(s) =>
      ReadOne(r, Str(EncodeString(s)));
    case JArray(items) =>
      PlainRun(r, "[");
      ReadDeepItems(r, items);
      Then(r, [Run("[")], r, ItemPieces(items), r);
      PlainRun(r, "]");
      Then(r, [Run("[")] + ItemPieces(items), r, [Run("]")], r);
    case JObject(members) =>
      var inside := r.(depth := r.depth + 1);
      OpenBrace(r);
      ReadDeepMembers(inside, members);
      Then(r, [Run("{")], inside, MemberPieces(members), inside);
      CloseBrace(inside);
      Then(r, [Run("{")] + MemberPieces(members), inside, [Run("}")], r);
  }

  lemma OpenBrace(r: Reader)
    requires r.Valid() && r.member == None
    ensures ReadPieces(r, [Run("{")]) == Some(Brace(r, '{'))
  {
    ReadOne(r, Run("{"));
    NoBraces(Brace(r, '{'), []);
    assert "{"[1..] == [];
  }

  lemma CloseBrace(r: Reader)
    requires r.Valid() && r.member == None
    ensures ReadPieces(r, [Run("}")]) == Some(r.(depth := r.depth - 1))
  {
    hide ReadPieces;
    ReadOne(r, Run("}"));
    NoBraces(Brace(r, '}'), []);
    assert "}"[1..] == [];
  }

  lemma {:induction false} ReadDeepItems(r: Reader, items: seq<Json>)
    requires r.Valid() && r.member == None && r.depth >= 3
    requires forall i :: 0 <= i < |items| ==> IsJson(items[i])
    ensures ReadPieces(r, ItemPieces(items)) == Some(r)
    decreases items, 0
  {
    if items != [] {
      ReadDeep(r, items[0]);
      if |items| > 1 {
        ReadDeepItems(r, items[1..]);
        PlainRun(r, ", ");
        Then(r, TextPieces(items[0]), r, [Run(", ")], r);
        Then(r, TextPieces(items[0]) + [Run(", ")], r, ItemPieces(items[1..]), r);
      }
    }
  }

  lemma {:induction false} ReadDeepMember(r: Reader, member: Member)
    requires r.Valid() && r.member == None && r.depth >= 3 && IsJson(member.value)
    ensures ReadPieces(r, MemberPiece(member)) == Some(r)
    decreases member, 0
  {
    ReadKey(r, member.name, r);
    ReadDeep(r, member.value);
    Then(r, KeyPieces(member.name), r, TextPieces(member.value), r);
  }

  /** A key no member is read after: its colon is skipped. */
  lemma ReadKey(r: Reader, name: string, after: Reader)
    requires r.Valid() && StringStep(r, EncodeString(name)) == Some(after) && after.member == None
    ensures ReadPieces(r, KeyPieces(name)) == Some(after)
  {
    ReadOne(r, Str(EncodeString(name)));
    PlainRun(after, ": ");
    Then(r, [Str(EncodeString(name))], after, [Run(": ")], after);
    assert KeyPieces(name) == [Str(EncodeString(name))] + [Run(": ")];
  }

  lemma {:induction false} ReadDeepMembers(r: Reader, members: seq<Member>)
    requires r.Valid() && r.member == None && r.depth >= 3
    requires forall i :: 0 <= i < |members| ==> IsJson(members[i].value)
    ensures ReadPieces(r, MemberPieces(members)) == Some(r)
    decreases members, 0
  {
    if members != [] {
      ReadDeepMember(r, members[0]);
      if |members| > 1 {
        ReadDeepMembers(r, members[1..]);
        PlainRun(r, ", ");
        Then(r, MemberPiece(members[0]), r, [Run(", ")], r);
        Then(r, MemberPiece(members[0]) + [Run(", ")], r, MemberPieces(members[1..]), r);
      }
    }
  }

  /** The objects of an iteration's own list, one level deeper than their iteration. */
  lemma {:induction false} ReadObjects(r: Reader, items: seq<Json>)
    requires r.Valid() && r.member == None && r.depth == 2
    requires forall i :: 0 <= i < |items| ==> items[i].JObject? && IsJson(items[i])
    ensures ReadPieces(r, ItemPieces(items)) == Some(r)
  {
    if items != [] {
      var inside := r.(depth := 3);
      OpenBrace(r);
      ReadDeepMembers(inside, items[0].members);
      Then(r, [Run("{")], inside, MemberPieces(items[0].members), inside);
      CloseBrace(inside);
      Then(r, [Run("{")] + MemberPieces(items[0].members), inside, [Run("}")], r);
      if |items| > 1 {
        ReadObjects(r, items[1..]);
        PlainRun(r, ", ");
        Then(r, TextPieces(items[0]), r, [Run(", ")], r);
        Then(r, TextPieces(items[0]) + [Run(", ")], r, ItemPieces(items[1..]), r);
      }
    }
  }

  // ---- One iteration ----

  /** The members of an iteration that are read: its number, then its own series. */
  function NameAt(k: nat): string
    requires k <= |ITERATION_SERIES|
  {
    if k == 0 then "number" else ITERATION_SERIES[k - 1]
  }

  function ValueAt(it: Iteration, k: nat): Json
    requires IsIteration(it) && k <= |ITERATION_SERIES|
  {
    if k == 0 then JNumber(it.number) else SeriesJson(it.series[ITERATION_SERIES[k - 1]])
  }

  function StoredAt(it: Iteration, k: nat, stride: nat): Stored
    requires IsIteration(it) && k <= |ITERATION_SERIES| && stride > 0
  {
    if k == 0 then Raw(Scalar(it.number)) else Samples(Sample(it.series[ITERATION_SERIES[k - 1]], stride))
  }

  /** What has been stored of an iteration once its first `k` members have ended. */
  function StoredUpTo(it: Iteration, k: nat, stride: nat): map<string, Stored>
    requires IsIteration(it) && k <= |ITERATION_SERIES| + 1 && stride > 0
  {
    if k == 0 then map[] else StoredUpTo(it, k - 1, stride)[NameAt(k - 1) := StoredAt(it, k - 1, stride)]
  }

  /** The run after a member's key, up to the next key. */
  function RunAfterKey(j: Json): bytes {
    ": " + Print(j) + ", "
  }

  /** The stride a series of this length would set, or the one already set. */
  ghost predicate SetsStride(r: Reader, length: nat, stride: nat)
    requires r.maxPoints > 0
  {
    r.stride == Some(stride) || (r.stride == None && StrideFor(length, r.maxPoints) == stride)
  }

  lemma RunStripped(x: bytes)
    requires x != [] && !IsSpace(x[0])
    ensures var text := Lstrip(": " + x + ", "); text != [] && text[0] == ':' && Lstrip(text[1..]) == x + ", "
  {
    var text := ": " + x + ", ";
    assert text[0] == ':' && Lstrip(text) == text;
    assert text[1..] == " " + (x + ", ");
    assert (" " + (x + ", "))[1..] == x + ", ";
    assert (x + ", ")[0] == x[0];
  }

  lemma OwnMemberEnds(r: Reader, it: Iteration, k: nat, stride: nat)
    requires r.Valid() && IsIteration(it) && k <= |ITERATION_SERIES| && stride > 0
    requires r.member == Some(NameAt(k)) && r.value == RunAfterKey(ValueAt(it, k))
    requires k > 0 ==> SetsStride(r, |it.series[ITERATION_SERIES[k - 1]]|, stride)
    ensures EndMemberStep(r) ==
            Some(Store(r.(member := None, value := [], stride := if k == 0 then r.stride else Some(stride)),
                       NameAt(k), StoredAt(it, k, stride)))
  {
    if k == 0 {
      IntegerIsNumber(it.number.text);
      NumberParses(it.number, ", ");
      RunStripped(it.number.text);
    } else {
      var values := it.series[ITERATION_SERIES[k - 1]];
      SeriesParses(values, ", ");
      assert Print(SeriesJson(values))[0] == '[';
      RunStripped(Print(SeriesJson(values)));
    }
  }

  lemma ValueIsPlain(it: Iteration, k: nat)
    requires IsIteration(it) && k <= |ITERATION_SERIES|
    ensures PlainRuns(TextPieces(ValueAt(it, k))) && Concat(TextPieces(ValueAt(it, k))) == Print(ValueAt(it, k))
  {
    if k == 0 {
      IntegerIsNumber(it.number.text);
      NumberTextHasNoQuote(it.number);
      ConcatOne(Run(EncodeNumber(it.number)));
    } else {
      SeriesIsPlain(it.series[ITERATION_SERIES[k - 1]]);
    }
  }

  function RunsAfterKey(j: Json): seq<Piece> {
    [Run(": ")] + TextPieces(j) + [Run(", ")]
  }

  lemma PlainBetween(pieces: seq<Piece>)
    requires PlainRuns(pieces)
    ensures PlainRuns([Run(": ")] + pieces + [Run(", ")])
    ensures Concat([Run(": ")] + pieces + [Run(", ")]) == ": " + Concat(pieces) + ", "
  {
    ConcatOne(Run(": "));
    ConcatAppend([Run(": ")], pieces);
    ConcatSnoc([Run(": ")] + pieces, Run(", "));
    hide Concat;
  }

  lemma RunsAfterKeyArePlain(it: Iteration, k: nat)
    requires IsIteration(it) && k <= |ITERATION_SERIES|
    ensures PlainRuns(RunsAfterKey(ValueAt(it, k)))
    ensures Concat(RunsAfterKey(ValueAt(it, k))) == RunAfterKey(ValueAt(it, k))
  {
    hide TextPieces, ValueAt, Print, Concat, PlainRuns, IsIteration;
    ValueIsPlain(it, k);
    PlainBetween(TextPieces(ValueAt(it, k)));
  }

  lemma MemberRegroup(name: string, j: Json)
    ensures MemberPiece(Member(name, j)) + [Run(", ")] == [Str(EncodeString(name))] + RunsAfterKey(j)
  {
    assert KeyPieces(name) == [Str(EncodeString(name))] + [Run(": ")];
    RegroupFour([Str(EncodeString(name))], [Run(": ")], TextPieces(j), [Run(", ")]);
  }

  lemma RegroupFour(a: seq<Piece>, b: seq<Piece>, c: seq<Piece>, d: seq<Piece>)
    ensures a + b + c + d == a + (b + c + d)
  {
  }

  lemma OwnNames(k: nat)
    requires k <= |ITERATION_SERIES|
    ensures IsOwnMember(NameAt(k))
  {
  }

  lemma OwnKeyStep(r: Reader, ready: Reader, name: string)
    requires r.Valid() && EndMemberStep(r) == Some(ready) && IsOwnMember(name)
    requires ready.depth == 2 && ready.iterations != []
    ensures ReadPieces(r, [Str(EncodeString(name))]) ==
            Some(ready.(member := Some(name), target := |ready.iterations| - 1))
  {
    StringRoundTrip(name);
    ReadOne(r, Str(EncodeString(name)));
    hide EncodeString, EndMemberStep, ReadPieces;
  }

  /** The key of a member to read, and the run after it. */
  lemma ReadOwnMember(r: Reader, ready: Reader, it: Iteration, k: nat)
    requires r.Valid() && IsIteration(it) && k <= |ITERATION_SERIES|
    requires EndMemberStep(r) == Some(ready)
    requires ready.depth == 2 && ready.iterations != [] && ready.value == []
    ensures ReadPieces(r, MemberPiece(Member(NameAt(k), ValueAt(it, k))) + [Run(", ")]) ==
            Some(ready.(member := Some(NameAt(k)), target := |ready.iterations| - 1,
                        value := RunAfterKey(ValueAt(it, k))))
  {
    OwnNames(k);
    OwnKeyStep(r, ready, NameAt(k));
    RunsAfterKeyArePlain(it, k);
    ReadRunsAfterKey(r, ready, NameAt(k), ValueAt(it, k));
    MemberRegroup(NameAt(k), ValueAt(it, k));
  }

  lemma ReadRunsAfterKey(r: Reader, ready: Reader, name: string, j: Json)
    requires r.Valid() && ready.Valid() && ready.iterations != [] && ready.value == []
    requires ReadPieces(r, [Str(EncodeString(name))]) ==
             Some(ready.(member := Some(name), target := |ready.iterations| - 1))
    requires PlainRuns(RunsAfterKey(j)) && Concat(RunsAfterKey(j)) == RunAfterKey(j)
    ensures ReadPieces(r, [Str(EncodeString(name))] + RunsAfterKey(j)) ==
            Some(ready.(member := Some(name), target := |ready.iterations| - 1, value := RunAfterKey(j)))
  {
    var started := ready.(member := Some(name), target := |ready.iterations| - 1);
    ReadPlainRuns(started, RunsAfterKey(j));
    NothingBefore(RunAfterKey(j));
    Then(r, [Str(EncodeString(name))], started, RunsAfterKey(j), started.(value := RunAfterKey(j)));
  }

  lemma IterationMembersAt(it: Iteration, k: nat)
    requires IsIteration(it) && k <= |ITERATION_SERIES| + 1
    ensures |IterationMembers(it)| == |ITERATION_SERIES| + 2
    ensures k <= |ITERATION_SERIES| ==> IterationMembers(it)[k] == Member(NameAt(k), ValueAt(it, k))
    ensures k == |ITERATION_SERIES| + 1 ==>
              IterationMembers(it)[k] == Member("consumers", JArray(ConsumersJson(it.consumers)))
  {
  }

  /** The reader between two members of an iteration, `k` of which have ended. */
  function Between(maxPoints: nat, stride0: Option<nat>, done: seq<map<string, Stored>>, it: Iteration, k: nat,
        stride: nat, target: nat): Reader
    requires IsIteration(it) && k <= |ITERATION_SERIES| + 1 && stride > 0
  {
    Reader(maxPoints, if k <= 1 then stride0 else Some(stride), 2, done + [StoredUpTo(it, k, stride)], None, target, [])
  }

  lemma BetweenEnds(maxPoints: nat, stride0: Option<nat>, done: seq<map<string, Stored>>, it: Iteration, k: nat,
        stride: nat, target: nat)
    requires IsIteration(it) && k <= |ITERATION_SERIES| && stride > 0 && maxPoints > 0
    requires SetsStride(NewReader(maxPoints).(stride := stride0), |it.series[ITERATION_SERIES[0]]|, stride)
    ensures var ready := Between(maxPoints, stride0, done, it, k, stride, target);
            var reading := ready.(member := Some(NameAt(k)), target := |done|, value := RunAfterKey(ValueAt(it, k)));
            && ready.Valid() && reading.Valid()
            && EndMemberStep(reading) == Some(Between(maxPoints, stride0, done, it, k + 1, stride, |done|))
  {
    var ready := Between(maxPoints, stride0, done, it, k, stride, target);
    var reading := ready.(member := Some(NameAt(k)), target := |done|, value := RunAfterKey(ValueAt(it, k)));
    OwnMemberEnds(reading, it, k, stride);
    assert (done + [StoredUpTo(it, k, stride)])[|done| := StoredUpTo(it, k + 1, stride)] ==
        done + [StoredUpTo(it, k + 1, stride)];
  }

  lemma ReadObjectList(ready: Reader, items: seq<Json>)
    requires ready.Valid() && ready.member == None && ready.depth == 2
    requires forall i :: 0 <= i < |items| ==> items[i].JObject? && IsJson(items[i])
    ensures ReadPieces(ready, TextPieces(JArray(items))) == Some(ready)
  {
    PlainRun(ready, "[");
    ReadObjects(ready, items);
    Then(ready, [Run("[")], ready, ItemPieces(items), ready);
    PlainRun(ready, "]");
    Then(ready, [Run("[")] + ItemPieces(items), ready, [Run("]")], ready);
  }

  lemma ReadConsumers(r: Reader, ready: Reader, consumers: seq<Consumer>)
    requires r.Valid() && EndMemberStep(r) == Some(ready) && ready.depth == 2
    requires forall i :: 0 <= i < |consumers| ==> IsConsumer(consumers[i])
    ensures ReadPieces(r, MemberPiece(Member("consumers", JArray(ConsumersJson(consumers))))) == Some(ready)
  {
    hide KeyPieces, IsConsumer, IsJson, ReadPieces, EndMemberStep, EncodeString, DecodeString;
    StringRoundTrip("consumers");
    assert !IsOwnMember("consumers");
    ReadKey(r, "consumers", ready);
    ConsumersAreJson(consumers);
    ReadObjectList(ready, ConsumersJson(consumers));
    Then(r, KeyPieces("consumers"), ready, TextPieces(JArray(ConsumersJson(consumers))), ready);
  }

  lemma {:induction false} ReadMembersFrom(r: Reader, maxPoints: nat, stride0: Option<nat>,
        done: seq<map<string, Stored>>, it: Iteration, k: nat, stride: nat, target: nat)
    requires IsIteration(it) && k <= |ITERATION_SERIES| + 1 && stride > 0 && maxPoints > 0
    requires SetsStride(NewReader(maxPoints).(stride := stride0), |it.series[ITERATION_SERIES[0]]|, stride)
    requires r.Valid() && EndMemberStep(r) == Some(Between(maxPoints, stride0, done, it, k, stride, target))
    requires k == |ITERATION_SERIES| + 1 ==> target == |done|
    ensures ReadPieces(r, MemberPieces(IterationMembers(it)[k..])) ==
            Some(Between(maxPoints, stride0, done, it, |ITERATION_SERIES| + 1, stride, |done|))
    decreases |ITERATION_SERIES| + 1 - k
  {
    hide MemberPieces, IterationMembers, EndMemberStep, ReadPieces, MemberPiece, StoredUpTo, RunAfterKey, ValueAt,
        NameAt, SetsStride, IsIteration;
    var members := IterationMembers(it);
    var ready := Between(maxPoints, stride0, done, it, k, stride, target);
    var end := Between(maxPoints, stride0, done, it, |ITERATION_SERIES| + 1, stride, |done|);
    IterationMembersAt(it, k);
    MembersFrom(members, k);
    if k == |ITERATION_SERIES| + 1 {
      IterationHasConsumers(it);
      ReadConsumers(r, ready, it.consumers);
    } else {
      var reading := ready.(member := Some(NameAt(k)), target := |done|, value := RunAfterKey(ValueAt(it, k)));
      ReadOwnMember(r, ready, it, k);
      BetweenEnds(maxPoints, stride0, done, it, k, stride, target);
      ReadMembersFrom(reading, maxPoints, stride0, done, it, k + 1, stride, |done|);
      Then(r, MemberPiece(members[k]) + [Run(", ")], reading, MemberPieces(members[k + 1..]), end);
    }
  }

  lemma IterationHasConsumers(it: Iteration)
    requires IsIteration(it)
    ensures forall i :: 0 <= i < |it.consumers| ==> IsConsumer(it.consumers[i])
  {
  }

  lemma MembersFrom(members: seq<Member>, k: nat)
    requires k < |members|
    ensures MemberPieces(members[k..]) ==
            if k == |members| - 1 then MemberPiece(members[k])
            else MemberPiece(members[k]) + [Run(", ")] + MemberPieces(members[k + 1..])
  {
    assert members[k..][1..] == members[k + 1..] && members[k..][0] == members[k];
  }

  lemma EnterIteration(r: Reader, it: Iteration, stride: nat)
    requires r.Valid() && r.member == None && r.value == [] && r.depth == 1
    requires IsIteration(it) && stride > 0
    ensures ReadPieces(r, [Run("{")]) == Some(Between(r.maxPoints, r.stride, r.iterations, it, 0, stride, r.target))
  {
    OpenBrace(r);
  }

  lemma ObjectPieces(members: seq<Member>)
    ensures TextPieces(JObject(members)) == [Run("{")] + MemberPieces(members) + [Run("}")]
  {
  }

  /** A whole iteration object, met at depth one. */
  lemma ReadIteration(r: Reader, it: Iteration, stride: nat)
    requires r.Valid() && r.member == None && r.value == [] && r.depth == 1
    requires IsIteration(it) && stride > 0
    requires SetsStride(r, |it.series[ITERATION_SERIES[0]]|, stride)
    ensures ReadPieces(r, TextPieces(JObject(IterationMembers(it)))) ==
            Some(Between(r.maxPoints, r.stride, r.iterations, it,
                         |ITERATION_SERIES| + 1, stride, |r.iterations|).(depth := 1))
  {
    var members := IterationMembers(it);
    var inside := Between(r.maxPoints, r.stride, r.iterations, it, 0, stride, r.target);
    var end := Between(r.maxPoints, r.stride, r.iterations, it, |ITERATION_SERIES| + 1, stride, |r.iterations|);
    ObjectPieces(members);
    hide ReadPieces, MemberPieces, TextPieces, IterationMembers, StoredUpTo, EndMemberStep, IsIteration;
    EnterIteration(r, it, stride);
    assert members[0..] == members;
    ReadMembersFrom(inside, r.maxPoints, r.stride, r.iterations, it, 0, stride, r.target);
    Then(r, [Run("{")], inside, MemberPieces(members), end);
    CloseBrace(end);
    Then(r, [Run("{")] + MemberPieces(members), end, [Run("}")], end.(depth := 1));
  }

  // ---- The document ----

  /** The stride a whole result is read with: set by its first series. */
  function StrideOf(result: seq<Iteration>, maxPoints: nat): (stride: nat)
    requires IsResult(result) && maxPoints > 0
    ensures stride > 0
  {
    if result == [] then 1 else StrideFor(|result[0].series[ITERATION_SERIES[0]]|, maxPoints)
  }

  function StoredAll(result: seq<Iteration>, stride: nat): seq<map<string, Stored>>
    requires IsResult(result) && stride > 0
  {
    seq(|result|, i requires 0 <= i < |result| => StoredUpTo(result[i], |ITERATION_SERIES| + 1, stride))
  }

  lemma ReadNextItem(r: Reader, items: seq<Json>, mid: Reader, end: Reader)
    requires r.Valid() && mid.Valid() && mid.member == None && |items| > 1
    requires ReadPieces(r, TextPieces(items[0])) == Some(mid) && ReadPieces(mid, ItemPieces(items[1..])) == Some(end)
    ensures ReadPieces(r, ItemPieces(items)) == Some(end)
  {
    hide ReadPieces, TextPieces;
    PlainRun(mid, ", ");
    Then(r, TextPieces(items[0]), mid, [Run(", ")], mid);
    Then(r, TextPieces(items[0]) + [Run(", ")], mid, ItemPieces(items[1..]), end);
  }

  lemma {:induction false} ReadIterationObjects(r: Reader, result: seq<Iteration>, stride: nat)
    requires r.Valid() && r.member == None && r.value == [] && r.depth == 1
    requires IsResult(result) && stride > 0
    requires result != [] ==> SetsStride(r, |result[0].series[ITERATION_SERIES[0]]|, stride)
    ensures var read := ReadPieces(r, ItemPieces(IterationsJson(result)));
            && read.Some?
            && read.value == r.(stride := if result == [] then r.stride else Some(stride), target := read.value.target,
                                iterations := r.iterations + StoredAll(result, stride))
    decreases |result|
  {
    if result == [] {
      NothingAfter(r.iterations);
    } else {
      hide TextPieces, ReadPieces;
      var items := IterationsJson(result);
      var mid := r.(stride := Some(stride), target := |r.iterations|,
                    iterations := r.iterations + [StoredUpTo(result[0], |ITERATION_SERIES| + 1, stride)]);
      ReadIteration(r, result[0], stride);
      assert StoredAll(result, stride) ==
             [StoredUpTo(result[0], |ITERATION_SERIES| + 1, stride)] + StoredAll(result[1..], stride);
      if |result| > 1 {
        assert items[1..] == IterationsJson(result[1..]);
        ReadIterationObjects(mid, result[1..], stride);
        ReadNextItem(r, items, mid, ReadPieces(mid, ItemPieces(items[1..])).value);
        Assoc(r.iterations, [StoredUpTo(result[0], |ITERATION_SERIES| + 1, stride)], StoredAll(result[1..], stride));
      } else {
        assert StoredAll(result[1..], stride) == [];
      }
    }
  }

  /** What reading back promises: each iteration's number and its own series at every `stride`-th timestep. */
  function Sampled(it: Iteration, stride: nat): IterationPoints
    requires IsIteration(it) && stride > 0
  {
    IterationPoints(it.number.text, map name | name in ITERATION_SERIES :: Sample(it.series[name], stride))
  }

  lemma {:induction false} StoredMembers(it: Iteration, k: nat, stride: nat)
    requires IsIteration(it) && k <= |ITERATION_SERIES| + 1 && stride > 0
    ensures forall i :: 0 <= i < k ==> NameAt(i) in StoredUpTo(it, k, stride)
                                       && StoredUpTo(it, k, stride)[NameAt(i)] == StoredAt(it, i, stride)
  {
    if k > 0 {
      StoredMembers(it, k - 1, stride);
      forall i | 0 <= i < k - 1 ensures NameAt(i) != NameAt(k - 1) {
        DistinctNames(i, k - 1);
      }
    }
  }

  lemma DistinctNames(i: nat, k: nat)
    requires i < k <= |ITERATION_SERIES|
    ensures NameAt(i) != NameAt(k)
  {
    assert |NameAt(0)| == 6 && |NameAt(1)| == 11 && |NameAt(2)| == 16 && |NameAt(3)| == 25;
    assert |NameAt(4)| == 15 && |NameAt(5)| == 7 && |NameAt(6)| == 12 && |NameAt(7)| == 21;
  }

  lemma StoredIsSampled(it: Iteration, stride: nat)
    requires IsIteration(it) && stride > 0
    ensures var stored := StoredUpTo(it, |ITERATION_SERIES| + 1, stride);
            IsComplete(stored) && Validated(stored) == Sampled(it, stride)
  {
    var n := |ITERATION_SERIES|;
    var stored := StoredUpTo(it, n + 1, stride);
    StoredMembers(it, n + 1, stride);
    assert NameAt(0) in stored && stored[NameAt(0)] == StoredAt(it, 0, stride);
    forall i | 0 <= i < n
      ensures ITERATION_SERIES[i] in stored
      ensures stored[ITERATION_SERIES[i]] == Samples(Sample(it.series[ITERATION_SERIES[i]], stride))
    {
      assert NameAt(i + 1) in stored && stored[NameAt(i + 1)] == StoredAt(it, i + 1, stride);
    }
  }

  lemma ReadIterationList(one: Reader, result: seq<Iteration>, stride: nat)
    requires one.Valid() && one.member == None && one.value == [] && one.depth == 1 && one.iterations == []
    requires IsResult(result) && stride > 0
    requires result != [] ==> SetsStride(one, |result[0].series[ITERATION_SERIES[0]]|, stride)
    ensures var read := ReadPieces(one, TextPieces(JArray(IterationsJson(result))));
            && read.Some?
            && read.value == one.(stride := if result == [] then one.stride else Some(stride),
                                 target := read.value.target,
                                  iterations := StoredAll(result, stride))
  {
    var items := IterationsJson(result);
    PlainRun(one, "[");
    ReadIterationObjects(one, result, stride);
    NothingBefore(StoredAll(result, stride));
    var read := ReadPieces(one, ItemPieces(items)).value;
    Then(one, [Run("[")], one, ItemPieces(items), read);
    PlainRun(read, "]");
    Then(one, [Run("[")] + ItemPieces(items), read, [Run("]")], read);
  }

  lemma ReadTopMember(r: Reader, one: Reader, name: string, j: Json, read: Reader)
    requires r.Valid() && r.member == None && r.depth == 0 && one == r.(depth := 1)
    requires ReadPieces(one, TextPieces(j)) == Some(read) && read.member == None
    ensures ReadPieces(r, TextPieces(JObject([Member(name, j)]))) == Some(read.(depth := read.depth - 1))
  {
    var member := Member(name, j);
    OpenBrace(r);
    ReadKey(one, name, one);
    Then(one, KeyPieces(name), one, TextPieces(j), read);
    Then(r, [Run("{")], one, MemberPiece(member), read);
    CloseBrace(read);
    Then(r, [Run("{")] + MemberPiece(member), read, [Run("}")], read.(depth := read.depth - 1));
    assert MemberPieces([member]) == MemberPiece(member);
  }

  lemma ReadPayload(result: seq<Iteration>, maxPoints: nat)
    requires IsResult(result) && maxPoints > 0
    ensures var read := ReadPieces(NewReader(maxPoints), TextPieces(Payload(result)));
            && read.Some?
            && read.value.member == None
            && read.value.stride == (if result == [] then None else Some(StrideOf(result, maxPoints)))
            && read.value.iterations == StoredAll(result, StrideOf(result, maxPoints))
  {
    var r := NewReader(maxPoints);
    var one := r.(depth := 1);
    var list := JArray(IterationsJson(result));
    ReadIterationList(one, result, StrideOf(result, maxPoints));
    ReadTopMember(r, one, "iterations", list, ReadPieces(one, TextPieces(list)).value);
  }

  /** What a point must be: nothing for a number that is not finite, else the text written for it. */
  predicate IsPoint(point: Option<bytes>, n: Number) {
    match n
    case Finite(_) => point == Some(EncodeNumber(n))
    case NaN => point == None
    case PosInfinity => point == None
    case NegInfinity => point == None
  }

  /** The points are those of timesteps 0, stride, 2 stride, ... and no other. */
  ghost predicate IsSampleOf(points: seq<Option<bytes>>, values: Series, stride: nat)
    requires stride > 0
  {
    && (forall i :: 0 <= i < |points| ==> i * stride < |values| && IsPoint(points[i], values[i * stride]))
    && (forall i :: 0 <= i < |values| && i % stride == 0 ==>
          i / stride < |points| && IsPoint(points[i / stride], values[i]))
  }

  /** The least stride that leaves at most `maxPoints` of so many timesteps. */
  ghost predicate IsLeastStride(stride: nat, length: nat, maxPoints: nat) {
    && stride > 0 && length <= stride * maxPoints
    && forall n :: 0 < n && length <= n * maxPoints ==> stride <= n
  }

  /** What is read of an iteration is its number as written, its own series sampled, and nothing else. */
  ghost predicate ReadsAs(read: IterationPoints, it: Iteration, stride: nat)
    requires IsIteration(it) && stride > 0
  {
    && read.number == EncodeNumber(it.number)
    && (forall name :: name in read.series <==> name in ITERATION_SERIES)
    && forall name :: name in ITERATION_SERIES ==> IsSampleOf(read.series[name], it.series[name], stride)
  }

  /** ... and of a result, in its order, with the stride its first series sets. */
  ghost predicate ResultReadsAs(read: seq<IterationPoints>, stride: nat, result: seq<Iteration>, maxPoints: nat)
    requires IsResult(result)
  {
    && stride > 0 && |read| == |result|
    && (result == [] ==> stride == 1)
    && (result != [] ==> IsLeastStride(stride, |result[0].series[ITERATION_SERIES[0]]|, maxPoints))
    && forall k :: 0 <= k < |result| ==> ReadsAs(read[k], result[k], stride)
  }

  /**
   * The round trip: reading the document written for a result gives back each iteration's
   * number and own series, sampled by the stride its first series sets, whatever the names
   * of the consumers hold.
   */
  lemma ReadWritten(result: seq<Iteration>, maxPoints: nat)
    requires IsResult(result) && maxPoints > 0
    ensures ReadDocument(Print(Payload(result)), maxPoints) ==
            Some((seq(|result|, i requires 0 <= i < |result| => Sampled(result[i], StrideOf(result, maxPoints))),
                  StrideOf(result, maxPoints)))
    ensures var read := ReadDocument(Print(Payload(result)), maxPoints).value;
            ResultReadsAs(read.0, read.1, result, maxPoints)
  {
    ReadStored(result, maxPoints);
    hide ReadDocument, Print, Payload, Sampled;
    SampledReadsAs(result, maxPoints);
  }

  lemma SampledReadsAs(result: seq<Iteration>, maxPoints: nat)
    requires IsResult(result) && maxPoints > 0
    ensures var stride := StrideOf(result, maxPoints);
            ResultReadsAs(seq(|result|, i requires 0 <= i < |result| => Sampled(result[i], stride)), stride, result,
                          maxPoints)
  {
    var stride := StrideOf(result, maxPoints);
    if result != [] {
      StrideIsLeast(|result[0].series[ITERATION_SERIES[0]]|, maxPoints);
    }
    hide IsIteration, StrideOf, IsLeastStride, Sample;
    forall k | 0 <= k < |result| ensures ReadsAs(Sampled(result[k], stride), result[k], stride) {
      forall name | name in ITERATION_SERIES
        ensures IsSampleOf(Sampled(result[k], stride).series[name], result[k].series[name], stride)
      {
        IterationHasSeries(result[k]);
        SampleIsSample(result[k].series[name], stride);
      }
      IterationNumber(result[k]);
    }
  }

  lemma IterationHasSeries(it: Iteration)
    requires IsIteration(it)
    ensures forall name :: name in ITERATION_SERIES ==> name in it.series
  {
  }

  lemma IterationNumber(it: Iteration)
    requires IsIteration(it)
    ensures it.number.Finite? && EncodeNumber(it.number) == it.number.text
  {
  }

  lemma ReadStored(result: seq<Iteration>, maxPoints: nat)
    requires IsResult(result) && maxPoints > 0
    ensures ReadDocument(Print(Payload(result)), maxPoints) ==
            Some((seq(|result|, i requires 0 <= i < |result| => Sampled(result[i], StrideOf(result, maxPoints))),
                  StrideOf(result, maxPoints)))
  {
    var stride := StrideOf(result, maxPoints);
    PayloadIsJson(result);
    SplitOfPrinted(Payload(result));
    ReadMerged(NewReader(maxPoints), TextPieces(Payload(result)));
    ReadPayload(result, maxPoints);
    hide ReadPieces, TextPieces, StoredAll, IsResult, Validated, Sampled, IsComplete, Print, SplitOf;
    StoredAllSampled(result, stride);
  }

  lemma StoredAllSampled(result: seq<Iteration>, stride: nat)
    requires IsResult(result) && stride > 0
    ensures var stored := StoredAll(result, stride);
            && (forall i :: 0 <= i < |stored| ==> IsComplete(stored[i]))
            && ValidatedAll(stored) == seq(|result|, i requires 0 <= i < |result| => Sampled(result[i], stride))
  {
    var stored := StoredAll(result, stride);
    hide StoredUpTo, Validated, Sampled, IsIteration;
    forall i | 0 <= i < |result| ensures IsComplete(stored[i]) && Validated(stored[i]) == Sampled(result[i], stride) {
      StoredIsSampled(result[i], stride);
    }
    assert ValidatedAll(stored) == seq(|result|, i requires 0 <= i < |result| => Sampled(result[i], stride));
  }

  lemma SampleIsSample(values: Series, stride: nat)
    requires stride > 0
    ensures IsSampleOf(Sample(values, stride), values, stride)
    ensures |Sample(values, stride)| == CeilDiv(|values|, stride)
  {
    var points := Sample(values, stride);
    forall i | 0 <= i < |values| && i % stride == 0
      ensures i / stride < |points| && IsPoint(points[i / stride], values[i])
    {
      Multiple(i, stride, |values|);
    }
    forall i | 0 <= i < |points| ensures i * stride < |values| && IsPoint(points[i], values[i * stride]) {
      SampleIndex(|values|, stride, i);
    }
  }

  /** Sampling one series by its own stride: at most `maxPoints` points, as few left out as that allows. */
  lemma SampledPoints(values: Series, maxPoints: nat)
    requires maxPoints > 0
    ensures var stride := StrideFor(|values|, maxPoints);
            && IsLeastStride(stride, |values|, maxPoints)
            && IsSampled(values, stride, Sample(values, stride), maxPoints)
            && (|values| <= maxPoints ==> stride == 1)
  {
    var stride := StrideFor(|values|, maxPoints);
    EnoughStride(|values|, maxPoints);
    StrideIsLeast(|values|, maxPoints);
    SampleIsSample(values, stride);
  }

  lemma DivBelow(x: nat, b: nat, m: nat)
    requires b > 0
    ensures x / b < m <==> x < m * b
  {
    var q := x / b;
    assert q * b <= x < q * b + b;
    if q < m {
      assert (q + 1) * b <= m * b;
    } else {
      assert m * b <= q * b;
    }
  }

  /** `n` steps of `b` reach `a` exactly when `n` is at least their rounded-up quotient. */
  lemma CeilIsLeast(a: nat, b: nat, n: nat)
    requires b > 0
    ensures CeilDiv(a, b) <= n <==> a <= n * b
  {
    DivBelow(a + b - 1, b, n + 1);
    assert (n + 1) * b == n * b + b;
  }

  lemma Multiple(i: nat, stride: nat, length: nat)
    requires stride > 0 && i < length && i % stride == 0
    ensures i / stride * stride == i && i / stride < CeilDiv(length, stride)
  {
    CeilIsLeast(length, stride, i / stride);
  }

  lemma EnoughStride(length: nat, maxPoints: nat)
    requires maxPoints > 0
    ensures CeilDiv(length, StrideFor(length, maxPoints)) <= maxPoints
    ensures length <= maxPoints ==> StrideFor(length, maxPoints) == 1
  {
    var stride := StrideFor(length, maxPoints);
    CeilIsLeast(length, maxPoints, stride);
    CeilIsLeast(length, maxPoints, 1);
    CeilIsLeast(length, stride, maxPoints);
    assert stride * maxPoints == maxPoints * stride;
  }

  lemma StrideIsLeast(length: nat, maxPoints: nat)
    requires maxPoints > 0
    ensures IsLeastStride(StrideFor(length, maxPoints), length, maxPoints)
  {
    CeilIsLeast(length, maxPoints, StrideFor(length, maxPoints));
    forall n | 0 < n && length <= n * maxPoints ensures StrideFor(length, maxPoints) <= n {
      CeilIsLeast(length, maxPoints, n);
    }
  }

  /** All series of a result have this length. */
  ghost predicate HasTimesteps(result: seq<Iteration>, timesteps: nat)
    requires IsResult(result)
  {
    forall k, name :: 0 <= k < |result| && name in ITERATION_SERIES ==> |result[k].series[name]| == timesteps
  }

  /**
   * A whole result: every series returned samples its own at the multiples of the one stride, which
   * the number of timesteps sets, and has at most `maxPoints` points.
   */
  lemma ReadIsBounded(result: seq<Iteration>, maxPoints: nat, timesteps: nat)
    requires IsResult(result) && maxPoints > 0 && result != [] && HasTimesteps(result, timesteps)
    ensures var read, stride := ReadDocument(Print(Payload(result)), maxPoints), StrideFor(timesteps, maxPoints);
            && read.Some? && read.value.1 == stride && |read.value.0| == |result|
            && IsLeastStride(stride, timesteps, maxPoints)
            && forall k, name :: 0 <= k < |result| && name in ITERATION_SERIES ==>
                 && name in read.value.0[k].series
                 && IsSampled(result[k].series[name], stride, read.value.0[k].series[name], maxPoints)
  {
    ReadWritten(result, maxPoints);
    assert ITERATION_SERIES[0] in ITERATION_SERIES;
    var read, stride := ReadDocument(Print(Payload(result)), maxPoints), StrideFor(timesteps, maxPoints);
    assert StrideOf(result, maxPoints) == stride;
    StrideIsLeast(timesteps, maxPoints);
    hide ReadDocument, Print, Payload, IsResult, StrideFor, Sample;
    forall k, name | 0 <= k < |result| && name in ITERATION_SERIES
      ensures name in read.value.0[k].series
      ensures IsSampled(result[k].series[name], stride, read.value.0[k].series[name], maxPoints)
    {
      assert read.value.0[k] == Sampled(result[k], stride);
      SeriesIsSampled(result[k].series[name], maxPoints);
    }
  }

  /** A sample of at most `maxPoints` points. */
  ghost predicate IsSampled(values: Series, stride: nat, points: seq<Option<bytes>>, maxPoints: nat)
    requires stride > 0
  {
    |points| <= maxPoints && IsSampleOf(points, values, stride)
  }

  lemma SeriesIsSampled(values: Series, maxPoints: nat)
    requires maxPoints > 0
    ensures IsSampled(values, StrideFor(|values|, maxPoints), Sample(values, StrideFor(|values|, maxPoints)), maxPoints)
  {
    SampledPoints(values, maxPoints);
  }

  /** Writing a result and reading it back, in any chunks: nothing but the result decides what is read. */
  method WriteThenRead(result: seq<Iteration>, chunks: seq<bytes>, maxPoints: nat)
    returns (read: Option<(seq<IterationPoints>, nat)>)
    requires IsResult(result) && maxPoints > 0
    requires Join(chunks) == Print(Payload(result))
    ensures read == Some((seq(|result|, i requires 0 <= i < |result| =>
                          Sampled(result[i], StrideOf(result, maxPoints))),
                          StrideOf(result, maxPoints)))
    ensures ResultReadsAs(read.value.0, read.value.1, result, maxPoints)
  {
    ReadWritten(result, maxPoints);
    hide IsResult, Print, Payload, ReadDocument, Sampled, ResultReadsAs;
    read := ReadIterations(chunks, maxPoints);
  }
}
