/** Reading back each iteration's own series, sampled, from the pieces of a stored document. */
module IterationReader {
  import opened Options
  import opened Bytes
  import opened Sequences
  import opened Splitter
  import opened JsonText
  import opened Printer

  // ---- Reading one value (`_DECODER.raw_decode`) ----

  /** What `bytes.lstrip` drops. */
  predicate IsSpace(b: byte) {
    b == ' ' || b == '\t' || b == '\n' || b == '\r' || b as int == 11 || b as int == 12
  }

  function Lstrip(s: bytes): bytes {
    if s != [] && IsSpace(s[0]) then Lstrip(s[1..]) else s
  }

  /** White space between JSON tokens (RFC 8259, section 2). */
  function SkipWhite(s: bytes): (r: bytes)
    ensures |r| <= |s|
  {
    if s != [] && (s[0] == ' ' || s[0] == '\t' || s[0] == '\n' || s[0] == '\r') then SkipWhite(s[1..]) else s
  }

  predicate WordByte(b: byte) {
    NumberByte(b) || b == 'I' || b == 'n' || b == 'f' || b == 'i' || b == 't' || b == 'y' || b == 'N' || b == 'a'
  }

  /** The length of the longest beginning made of the bytes numbers are written with. */
  function WordLength(s: bytes): (n: nat)
    ensures n <= |s|
  {
    if s != [] && WordByte(s[0]) then 1 + WordLength(s[1..]) else 0
  }

  function ParseNumber(word: bytes): Option<Number> {
    if word == "NaN" then Some(NaN)
    else if word == "Infinity" then Some(PosInfinity)
    else if word == "-Infinity" then Some(NegInfinity)
    else if IsNumberText(word) then Some(Finite(word))
    else None
  }

  /** The numbers of a list, from its first one to the closing bracket. */
  function ParseElements(s: bytes): Option<seq<Number>>
    decreases |s|
  {
    var n := WordLength(s);
    match ParseNumber(s[..n])
    case None => None
    case Some(first) =>
      var rest := SkipWhite(s[n..]);
      if rest == [] || n == 0 then None
      else if rest[0] == ']' then Some([first])
      else if rest[0] != ',' then None
      else
        match ParseElements(SkipWhite(rest[1..]))
        case None => None
        case Some(others) => Some([first] + others)
  }

  datatype Value = Scalar(number: Number) | List(numbers: Series)

  /** The value a text starts with, None where decoding raises. */
  function RawDecode(s: bytes): Option<Value> {
    if s != [] && s[0] == '[' then
      var rest := SkipWhite(s[1..]);
      if rest != [] && rest[0] == ']' then Some(List([]))
      else
        match ParseElements(rest)
        case None => None
        case Some(numbers) => Some(List(numbers))
    else
      match ParseNumber(s[..WordLength(s)])
      case None => None
      case Some(number) => Some(Scalar(number))
  }

  // ---- Sampling ----

  function CeilDiv(a: nat, b: nat): nat
    requires b > 0
  {
    (a + b - 1) / b
  }

  /** `max(1, math.ceil(length / max_points))` */
  function StrideFor(length: nat, maxPoints: nat): (s: nat)
    requires maxPoints > 0
    ensures s > 0
  {
    var s := CeilDiv(length, maxPoints);
    if s > 1 then s else 1
  }

  /** A finite number keeps its text, any other becomes null. */
  function Point(n: Number): Option<bytes> {
    if n.Finite? then Some(n.text) else None
  }

  lemma QuotientTimes(a: nat, b: nat)
    requires b > 0
    ensures a / b * b <= a
  {
  }

  lemma TimesAtMost(a: nat, b: nat, c: nat)
    requires a <= b
    ensures a * c <= b * c
  {
  }

  lemma SampleIndex(length: nat, stride: nat, i: nat)
    requires stride > 0 && i < CeilDiv(length, stride)
    ensures i * stride < length
  {
    QuotientTimes(length + stride - 1, stride);
    TimesAtMost(i + 1, CeilDiv(length, stride), stride);
    assert (i + 1) * stride == i * stride + stride;
  }

  /** `values[::stride]`, point by point. */
  function Sample(values: Series, stride: nat): seq<Option<bytes>>
    requires stride > 0
  {
    seq(CeilDiv(|values|, stride), i requires 0 <= i < CeilDiv(|values|, stride) =>
      SampleIndex(|values|, stride, i); Point(values[i * stride]))
  }

  // ---- Reference: the reader's state ----

  datatype Stored = Raw(value: Value) | Samples(points: seq<Option<bytes>>)

  datatype Reader = Reader(
    maxPoints: nat,
    stride: Option<nat>,
    depth: int,
    iterations: seq<map<string, Stored>>,
    member: Option<string>,
    target: nat,
    value: bytes)
  {
    predicate Valid() {
      && maxPoints > 0
      && (stride.Some? ==> stride.value > 0)
      && (member.Some? ==> target < |iterations|)
    }
  }

  predicate IsOwnMember(name: string) {
    name == "number" || name in ITERATION_SERIES
  }

  function Store(r: Reader, name: string, stored: Stored): Reader
    requires r.target < |r.iterations|
  {
    r.(iterations := r.iterations[r.target := r.iterations[r.target][name := stored]])
  }

  /** `_end_member`; None where it raises. */
  function EndMemberStep(r: Reader): (e: Option<Reader>)
    requires r.Valid()
    ensures e.Some? ==> e.value.Valid() && e.value.member == None && e.value.depth == r.depth
    ensures e.Some? ==> |e.value.iterations| == |r.iterations|
  {
    if r.member.None? then Some(r)
    else
      var text := Lstrip(r.value);
      var ended := r.(member := None, value := []);
      if text == [] || text[0] != ':' then Some(ended)
      else
        match RawDecode(Lstrip(text[1..]))
        case None => None
        case Some(value) =>
          if r.member.value == "number" then Some(Store(ended, "number", Raw(value)))
          else if value.Scalar? then None
          else
            var stride := if r.stride.Some? then r.stride.value else StrideFor(|value.numbers|, r.maxPoints);
            Some(Store(ended.(stride := Some(stride)), r.member.value, Samples(Sample(value.numbers, stride))))
  }

  /** `string` */
  function StringStep(r: Reader, token: bytes): (e: Option<Reader>)
    requires r.Valid()
    ensures e.Some? ==> e.value.Valid()
  {
    match EndMemberStep(r)
    case None => None
    case Some(ended) =>
      if ended.depth != 2 || ended.iterations == [] then Some(ended)
      else
        match DecodeString(token)
        case None => None
        case Some(name) =>
          if IsOwnMember(name) then Some(ended.(member := Some(name), target := |ended.iterations| - 1))
          else Some(ended)
  }

  function Brace(r: Reader, b: byte): Reader {
    if b == '{' then
      r.(depth := r.depth + 1, iterations := if r.depth + 1 == 2 then r.iterations + [map[]] else r.iterations)
    else if b == '}' then r.(depth := r.depth - 1)
    else r
  }

  function Braces(r: Reader, s: bytes): (e: Reader)
    ensures r.Valid() ==> e.Valid()
    ensures e.member == r.member && e.value == r.value
    decreases |s|
  {
    if s == [] then r else Braces(Brace(r, s[0]), s[1..])
  }

  /** `run` */
  function RunStep(r: Reader, piece: bytes): (e: Reader)
    ensures r.Valid() ==> e.Valid()
  {
    Braces(if r.member.Some? then r.(value := r.value + piece) else r, piece)
  }

  function PieceStep(r: Reader, piece: Piece): (e: Option<Reader>)
    requires r.Valid()
    ensures e.Some? ==> e.value.Valid()
  {
    match piece
    case Str(token) => StringStep(r, token)
    case Run(text) => Some(RunStep(r, text))
  }

  /** The state after a stream of pieces; None once a step has raised. */
  function ReadPieces(r: Reader, pieces: seq<Piece>): (e: Option<Reader>)
    requires r.Valid()
    ensures e.Some? ==> e.value.Valid()
  {
    if pieces == [] then Some(r)
    else
      match ReadPieces(r, pieces[..|pieces| - 1])
      case None => None
      case Some(before) => PieceStep(before, pieces[|pieces| - 1])
  }

  /** An iteration as returned: its number's text and its sampled series. It has no consumers. */
  datatype IterationPoints = IterationPoints(number: bytes, series: map<string, seq<Option<bytes>>>)

  /** `IterationTimeseries.model_validate`: every member must be there, the number an integer. */
  predicate IsComplete(members: map<string, Stored>) {
    && "number" in members && members["number"].Raw? && members["number"].value.Scalar?
    && members["number"].value.number.Finite? && IsIntegerText(members["number"].value.number.text)
    && forall i :: 0 <= i < |ITERATION_SERIES| ==>
         ITERATION_SERIES[i] in members && members[ITERATION_SERIES[i]].Samples?
  }

  function Validated(members: map<string, Stored>): IterationPoints
    requires IsComplete(members)
  {
    IterationPoints(members["number"].value.number.text,
                    map name | name in ITERATION_SERIES :: members[name].points)
  }

  function ValidatedAll(iterations: seq<map<string, Stored>>): seq<IterationPoints>
    requires forall i :: 0 <= i < |iterations| ==> IsComplete(iterations[i])
  {
    seq(|iterations|, i requires 0 <= i < |iterations| => Validated(iterations[i]))
  }

  /** `finish`; None where it raises. */
  function FinishStep(r: Reader): Option<(seq<IterationPoints>, nat)>
    requires r.Valid()
  {
    match EndMemberStep(r)
    case None => None
    case Some(ended) =>
      if forall i :: 0 <= i < |ended.iterations| ==> IsComplete(ended.iterations[i]) then
        Some((ValidatedAll(ended.iterations), if ended.stride.Some? then ended.stride.value else 1))
      else None
  }

  function NewReader(maxPoints: nat): (r: Reader)
    ensures maxPoints > 0 ==> r.Valid()
  {
    Reader(maxPoints, None, 0, [], None, 0, [])
  }

  /** What a whole document reads as: a function of its bytes alone. */
  function ReadDocument(doc: bytes, maxPoints: nat): Option<(seq<IterationPoints>, nat)>
    requires maxPoints > 0
  {
    match ReadPieces(NewReader(maxPoints), SplitOf(doc).tokens)
    case None => None
    case Some(r) => if SplitOf(doc).tail == [] then FinishStep(r) else None
  }

  // ---- Chunks do not matter ----

  lemma {:induction false} BracesAppend(r: Reader, a: bytes, b: bytes)
    ensures Braces(r, a + b) == Braces(Braces(r, a), b)
    decreases |a|
  {
    if a == [] {
      assert a + b == b;
    } else {
      DropAppend(a, b, 1);
      BracesAppend(Brace(r, a[0]), a[1..], b);
    }
  }

  /** The braces a run holds do not depend on the value being collected. */
  lemma {:induction false} BracesValue(r: Reader, v: bytes, s: bytes)
    ensures Braces(r.(value := v), s) == Braces(r, s).(value := v)
    decreases |s|
  {
    if s != [] {
      assert Brace(r.(value := v), s[0]) == Brace(r, s[0]).(value := v);
      BracesValue(Brace(r, s[0]), v, s[1..]);
    }
  }

  lemma RunStepAppend(r: Reader, a: bytes, b: bytes)
    ensures RunStep(RunStep(r, a), b) == RunStep(r, a + b)
  {
    BracesAppend(r, a, b);
    if r.member.Some? {
      Assoc(r.value, a, b);
      BracesValue(r, r.value + a, a);
      BracesValue(r, r.value + (a + b), a + b);
      BracesValue(Braces(r, a), r.value + a + b, b);
    }
  }

  lemma ReadSnoc(r: Reader, pieces: seq<Piece>, piece: Piece)
    requires r.Valid()
    ensures ReadPieces(r, pieces + [piece]) ==
            match ReadPieces(r, pieces)
            case None => None
            case Some(before) => PieceStep(before, piece)
  {
    SnocFront(pieces, piece);
  }

  lemma ReadAddPiece(r: Reader, tokens: seq<Piece>, piece: Piece)
    requires r.Valid()
    ensures ReadPieces(r, AddPiece(tokens, piece)) == ReadPieces(r, tokens + [piece])
  {
    ReadSnoc(r, tokens, piece);
    if piece.Run? {
      if piece.text == [] {
        var before := ReadPieces(r, tokens);
        if before.Some? && before.value.member.Some? {
          NothingAfter(before.value.value);
        }
      } else if tokens != [] && tokens[|tokens| - 1].Run? {
        var front, last := tokens[..|tokens| - 1], tokens[|tokens| - 1].text;
        ReadSnoc(r, front, Run(last + piece.text));
        if ReadPieces(r, front).Some? {
          RunStepAppend(ReadPieces(r, front).value, last, piece.text);
        }
      }
    }
  }

  /** Merging the runs a chunk boundary cut changes nothing for the reader. */
  lemma {:induction false} ReadMerged(r: Reader, pieces: seq<Piece>)
    requires r.Valid()
    ensures ReadPieces(r, Merge(pieces)) == ReadPieces(r, pieces)
  {
    if pieces != [] {
      var front, last := pieces[..|pieces| - 1], pieces[|pieces| - 1];
      ReadMerged(r, front);
      ReadAddPiece(r, Merge(front), last);
      ReadSnoc(r, Merge(front), last);
    }
  }

  // ---- The reader ----

  /** `_IterationReader`. `target` is the position of the iteration `member` belongs to. */
  class IterationCollector {
    const maxPoints: nat
    var stride: Option<nat>
    var depth: int
    var iterations: seq<map<string, Stored>>
    var member: Option<string>
    var target: nat
    var value: seq<bytes>

    function View(): Reader
      reads this
    {
      Reader(maxPoints, stride, depth, iterations, member, target, Join(value))
    }

    constructor (maxPoints: nat)
      ensures View() == NewReader(maxPoints) && value == []
    {
      this.maxPoints := maxPoints;
      stride, depth, iterations, member, target, value := None, 0, [], None, 0, [];
    }

    /** Returns false where the source raises. */
    method EndMember() returns (ok: bool)
      requires View().Valid()
      modifies this
      ensures ok <==> EndMemberStep(old(View())).Some?
      ensures ok ==> View() == EndMemberStep(old(View())).value
    {
      if member.None? {
        return true;
      }
      var name, text := member.value, Lstrip(Join(value));
      member, value := None, [];
      if text == [] || text[0] != ':' {
        return true;
      }
      var decoded := RawDecode(Lstrip(text[1..]));
      if decoded.None? {
        return false;
      }
      if name == "number" {
        iterations := iterations[target := iterations[target]["number" := Raw(decoded.value)]];
        return true;
      }
      if decoded.value.Scalar? {
        return false;
      }
      if stride.None? {
        stride := Some(StrideFor(|decoded.value.numbers|, maxPoints));
      }
      var points := Sample(decoded.value.numbers, stride.value);
      iterations := iterations[target := iterations[target][name := Samples(points)]];
      return true;
    }

    method String(token: bytes) returns (ok: bool)
      requires View().Valid()
      modifies this
      ensures ok <==> StringStep(old(View()), token).Some?
      ensures ok ==> View() == StringStep(old(View()), token).value
    {
      ok := EndMember();
      if ok && depth == 2 && iterations != [] {
        var name := DecodeString(token);
        if name.None? {
          return false;
        }
        if IsOwnMember(name.value) {
          member, target := name, |iterations| - 1;
        }
      }
    }

    method Run(piece: bytes)
      requires View().Valid()
      modifies this
      ensures View() == RunStep(old(View()), piece)
    {
      if member.Some? {
        JoinSnoc(value, piece);
        value := value + [piece];
      }
      CountBraces(piece);
    }

    /** The loop of `run`. */
    method CountBraces(piece: bytes)
      requires View().Valid()
      modifies this
      ensures View() == Braces(old(View()), piece)
    {
      hide Braces;
      var start := 0;
      assert piece[0..] == piece;
      while true
        invariant 0 <= start <= |piece|
        invariant View().Valid() && Braces(View(), piece[start..]) == Braces(old(View()), piece)
        decreases |piece| - start
      {
        var opening := Find(piece, '{', start);
        var closing := Find(piece, '}', start);
        NextBrace(View(), piece, start);
        if opening < 0 && closing < 0 {
          return;
        }
        if closing < 0 || 0 <= opening < closing {
          depth := depth + 1;
          start := opening + 1;
          if depth == 2 {
            iterations := iterations + [map[]];
          }
        } else {
          depth := depth - 1;
          start := closing + 1;
        }
      }
    }

    method Finish() returns (result: Option<(seq<IterationPoints>, nat)>)
      requires View().Valid()
      modifies this
      ensures result == FinishStep(old(View()))
    {
      var ok := EndMember();
      if !ok {
        return None;
      }
      var validated, read := [], iterations;
      for i := 0 to |iterations|
        invariant iterations == read
        invariant View() == EndMemberStep(old(View())).value
        invariant forall k :: 0 <= k < i ==> IsComplete(iterations[k])
        invariant |validated| == i && forall k :: 0 <= k < i ==> validated[k] == Validated(read[k])
      {
        if !IsComplete(iterations[i]) {
          return None;
        }
        validated := validated + [Validated(read[i])];
      }
      assert validated == ValidatedAll(read);
      return Some((validated, if stride.Some? then stride.value else 1));
    }
  }

  lemma {:induction false} NoBraces(r: Reader, s: bytes)
    requires '{' !in s && '}' !in s
    ensures Braces(r, s) == r
    decreases |s|
  {
    if s != [] {
      NoBraces(r, s[1..]);
    }
  }

  lemma BracesFrom(r: Reader, piece: bytes, start: nat, at: nat)
    requires start <= at < |piece|
    requires forall i :: start <= i < at ==> piece[i] != '{' && piece[i] != '}'
    ensures Braces(r, piece[start..]) == Braces(Brace(r, piece[at]), piece[at + 1..])
  {
    assert piece[start..] == piece[start..at] + piece[at..];
    BracesAppend(r, piece[start..at], piece[at..]);
    NoBraces(r, piece[start..at]);
  }

  lemma FindMeaning(s: bytes, b: byte, start: nat)
    requires start <= |s|
    ensures Find(s, b, start) == -1 ==> forall i :: start <= i < |s| ==> s[i] != b
    ensures Find(s, b, start) != -1 ==> forall i :: start <= i < Find(s, b, start) ==> s[i] != b
  {
    var n := Find(s, b, start);
    var part := if n == -1 then s[start..] else s[start..n];
    assert forall i :: start <= i < start + |part| ==> s[i] == part[i - start];
  }

  /** What the reader does with the bytes from `start` on, up to the first brace among them. */
  lemma NextBrace(r: Reader, piece: bytes, start: nat)
    requires start <= |piece|
    ensures var opening, closing := Find(piece, '{', start), Find(piece, '}', start);
            if opening < 0 && closing < 0 then Braces(r, piece[start..]) == r
            else
              var at := if closing < 0 || 0 <= opening < closing then opening else closing;
              Braces(r, piece[start..]) == Braces(Brace(r, piece[at]), piece[at + 1..])
  {
    var opening, closing := Find(piece, '{', start), Find(piece, '}', start);
    FindMeaning(piece, '{', start);
    FindMeaning(piece, '}', start);
    if opening < 0 && closing < 0 {
      NoBraces(r, piece[start..]);
    } else {
      BracesFrom(r, piece, start, if closing < 0 || 0 <= opening < closing then opening else closing);
    }
  }

  /**
   * `read_iterations`: each iteration's own series, sampled, and the stride. The result is a
   * function of the document, however it was cut into chunks; None where the source raises.
   */
  method ReadIterations(chunks: seq<bytes>, maxPoints: nat) returns (result: Option<(seq<IterationPoints>, nat)>)
    requires maxPoints > 0
    ensures result == ReadDocument(Join(chunks), maxPoints)
  {
    var reader := new IterationCollector(maxPoints);
    var pieces, complete := Pieces(chunks);
    ReadMerged(NewReader(maxPoints), pieces);
    for k := 0 to |pieces|
      invariant ReadPieces(NewReader(maxPoints), pieces[..k]) == Some(reader.View())
    {
      TakeOne(pieces, k);
      ReadSnoc(NewReader(maxPoints), pieces[..k], pieces[k]);
      match pieces[k]
      case Str(token) =>
        var ok := reader.String(token);
        if !ok {
          ReadStopped(NewReader(maxPoints), pieces, k + 1);
          return None;
        }
      case Run(text) =>
        reader.Run(text);
    }
    assert pieces[..|pieces|] == pieces;
    if !complete {
      return None;
    }
    result := reader.Finish();
  }

  lemma {:induction false} ReadStopped(r: Reader, pieces: seq<Piece>, k: nat)
    requires r.Valid() && k <= |pieces| && ReadPieces(r, pieces[..k]) == None
    ensures ReadPieces(r, pieces) == None
  {
    if k == |pieces| {
      assert pieces[..k] == pieces;
    } else {
      assert pieces[..|pieces| - 1][..k] == pieces[..k];
      ReadStopped(r, pieces[..|pieces| - 1], k);
    }
  }
}
