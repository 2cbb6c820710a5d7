/** Splitting a JSON document, read in chunks, at its strings (`_pieces`). */
module Splitter {
  import opened Bytes
  import opened Sequences

  /** One yield of the splitter: a whole string token, quotes included, or bytes between two strings. */
  datatype Piece = Str(text: bytes) | Run(text: bytes)

  // ---- String tokens (RFC 8259, section 7) ----

  /** Where a reader stands after the bytes that follow a string's opening quote. */
  datatype Scan = Open(escaped: bool) | Closed | Past

  function ScanBody(body: bytes): Scan {
    if body == [] then Open(false)
    else
      var b := body[|body| - 1];
      match ScanBody(body[..|body| - 1])
      case Open(true) => Open(false)
      case Open(false) => if b == QUOTE then Closed else Open(b == BACKSLASH)
      case _ => Past
  }

  /** From its opening quote to the first quote no backslash escapes. */
  predicate IsStringToken(s: bytes) {
    s != [] && s[0] == QUOTE && ScanBody(s[1..]) == Closed
  }

  /** A string token that has been opened and not closed. */
  predicate IsOpenString(s: bytes) {
    s != [] && s[0] == QUOTE && ScanBody(s[1..]).Open?
  }

  lemma {:induction false} ScanAppend(body: bytes, b: byte)
    ensures ScanBody(body + [b]) ==
            match ScanBody(body)
            case Open(true) => Open(false)
            case Open(false) => if b == QUOTE then Closed else Open(b == BACKSLASH)
            case _ => Past
  {
    assert (body + [b])[..|body|] == body;
  }

  /** Bytes that are neither a quote nor a backslash leave an open string open. */
  lemma {:induction false} ScanPlain(body: bytes, plain: bytes)
    requires ScanBody(body) == Open(false)
    requires QUOTE !in plain && BACKSLASH !in plain
    ensures ScanBody(body + plain) == Open(false)
  {
    if plain == [] {
      assert body + plain == body;
    } else {
      var front := plain[..|plain| - 1];
      ScanPlain(body, front);
      ScanAppend(body + front, plain[|plain| - 1]);
      assert body + plain == body + front + [plain[|plain| - 1]];
    }
  }

  // ---- The split of a whole document ----

  /** The pieces of a document with adjacent runs merged, and the string its end leaves open. */
  datatype Split = Split(tokens: seq<Piece>, tail: bytes)

  function AddPiece(tokens: seq<Piece>, piece: Piece): seq<Piece> {
    if piece.Str? then tokens + [piece]
    else if piece.text == [] then tokens
    else if tokens != [] && tokens[|tokens| - 1].Run? then
      tokens[..|tokens| - 1] + [Run(tokens[|tokens| - 1].text + piece.text)]
    else tokens + [piece]
  }

  /** Merges the adjacent runs of a stream of pieces. */
  function Merge(pieces: seq<Piece>): seq<Piece> {
    if pieces == [] then []
    else AddPiece(Merge(pieces[..|pieces| - 1]), pieces[|pieces| - 1])
  }

  function Step(split: Split, b: byte): Split {
    if split.tail == [] then
      if b == QUOTE then Split(split.tokens, [b]) else Split(AddPiece(split.tokens, Run([b])), [])
    else
      var text := split.tail + [b];
      if ScanBody(text[1..]) == Closed then Split(split.tokens + [Str(text)], [])
      else Split(split.tokens, text)
  }

  /** The split of a document, one byte at a time. */
  function SplitOf(doc: bytes): Split {
    if doc == [] then Split([], []) else Step(SplitOf(doc[..|doc| - 1]), doc[|doc| - 1])
  }

  function Concat(pieces: seq<Piece>): bytes {
    if pieces == [] then [] else Concat(pieces[..|pieces| - 1]) + pieces[|pieces| - 1].text
  }

  predicate IsPiece(piece: Piece) {
    match piece
    case Str(s) => IsStringToken(s)
    case Run(s) => s != [] && QUOTE !in s
  }

  /** Whole strings and maximal runs. */
  ghost predicate AreTokens(tokens: seq<Piece>) {
    && (forall i :: 0 <= i < |tokens| ==> IsPiece(tokens[i]))
    && (forall i :: 0 < i < |tokens| ==> tokens[i - 1].Str? || tokens[i].Str?)
  }

  /** `split` decomposes `doc` into whole strings, maximal runs and at most one open string at its end. */
  ghost predicate IsSplit(split: Split, doc: bytes) {
    && doc == Concat(split.tokens) + split.tail
    && AreTokens(split.tokens)
    && (split.tail == [] || IsOpenString(split.tail))
  }

  lemma ConcatSnoc(pieces: seq<Piece>, piece: Piece)
    ensures Concat(pieces + [piece]) == Concat(pieces) + piece.text
  {
    assert (pieces + [piece])[..|pieces|] == pieces;
  }

  lemma MergeSnoc(pieces: seq<Piece>, piece: Piece)
    ensures Merge(pieces + [piece]) == AddPiece(Merge(pieces), piece)
  {
    assert (pieces + [piece])[..|pieces|] == pieces;
  }

  lemma SplitSnoc(doc: bytes, b: byte)
    ensures SplitOf(doc + [b]) == Step(SplitOf(doc), b)
  {
    assert (doc + [b])[..|doc|] == doc;
  }

  lemma AddPieceConcat(tokens: seq<Piece>, piece: Piece)
    ensures Concat(AddPiece(tokens, piece)) == Concat(tokens) + piece.text
  {
    ConcatSnoc(tokens, piece);
    if piece.Run? && piece.text != [] && tokens != [] && tokens[|tokens| - 1].Run? {
      ConcatSnoc(tokens[..|tokens| - 1], Run(tokens[|tokens| - 1].text + piece.text));
    }
  }

  lemma {:induction false} MergeConcat(pieces: seq<Piece>)
    ensures Concat(Merge(pieces)) == Concat(pieces)
  {
    if pieces != [] {
      MergeConcat(pieces[..|pieces| - 1]);
      AddPieceConcat(Merge(pieces[..|pieces| - 1]), pieces[|pieces| - 1]);
    }
  }

  lemma AddPieceKeepsTokens(tokens: seq<Piece>, piece: Piece)
    requires AreTokens(tokens)
    requires IsPiece(piece) || piece == Run([])
    ensures AreTokens(AddPiece(tokens, piece))
  {
  }

  lemma AddRunTwice(tokens: seq<Piece>, first: bytes, second: bytes)
    ensures AddPiece(AddPiece(tokens, Run(first)), Run(second)) == AddPiece(tokens, Run(first + second))
  {
    if first == [] {
      assert first + second == second;
    } else if second == [] {
      assert first + second == first;
    } else if tokens != [] && tokens[|tokens| - 1].Run? {
      var last := tokens[|tokens| - 1].text;
      assert last + first + second == last + (first + second);
    }
  }

  lemma StepRun(doc: bytes, tokens: seq<Piece>, b: byte)
    requires SplitOf(doc) == Split(tokens, []) && b != QUOTE
    ensures SplitOf(doc + [b]) == Split(AddPiece(tokens, Run([b])), [])
  {
    SplitSnoc(doc, b);
  }

  /** Bytes without a quote, read between two strings, extend the last run. */
  lemma {:induction false} SplitRun(doc: bytes, tokens: seq<Piece>, run: bytes)
    requires SplitOf(doc) == Split(tokens, []) && QUOTE !in run
    ensures SplitOf(doc + run) == Split(AddPiece(tokens, Run(run)), [])
  {
    if run == [] {
      assert doc + run == doc;
    } else {
      var front, b := run[..|run| - 1], run[|run| - 1];
      SplitRun(doc, tokens, front);
      StepRun(doc + front, AddPiece(tokens, Run(front)), b);
      AddRunTwice(tokens, front, [b]);
      Unsnoc(run);
      Assoc(doc, front, [b]);
    }
  }

  /** An opened string stays in the tail. */
  lemma {:induction false} SplitOpen(doc: bytes, text: bytes)
    requires SplitOf(doc).tail == [] && IsOpenString(text)
    ensures SplitOf(doc + text) == Split(SplitOf(doc).tokens, text)
  {
    var front, b := text[..|text| - 1], text[|text| - 1];
    assert doc + text == doc + front + [b];
    SplitSnoc(doc + front, b);
    if front == [] {
      assert doc + front == doc;
    } else {
      assert text[1..] == front[1..] + [b];
      ScanAppend(front[1..], b);
      SplitOpen(doc, front);
      assert front + [b] == text;
    }
  }

  /** A string token, once closed, is a piece of its own. */
  lemma SplitString(doc: bytes, text: bytes)
    requires SplitOf(doc).tail == [] && IsStringToken(text)
    ensures SplitOf(doc + text) == Split(SplitOf(doc).tokens + [Str(text)], [])
  {
    var front, b := text[..|text| - 1], text[|text| - 1];
    assert text[1..] == front[1..] + [b];
    ScanAppend(front[1..], b);
    SplitOpen(doc, front);
    assert doc + text == doc + front + [b];
    SplitSnoc(doc + front, b);
    assert front + [b] == text;
  }

  lemma StepOutside(split: Split, doc: bytes, b: byte)
    requires IsSplit(split, doc) && split.tail == []
    ensures IsSplit(Step(split, b), doc + [b])
  {
    if b != QUOTE {
      AddPieceConcat(split.tokens, Run([b]));
      AddPieceKeepsTokens(split.tokens, Run([b]));
    } else {
      assert [b][1..] == [];
    }
  }

  lemma StepInside(split: Split, doc: bytes, b: byte)
    requires IsSplit(split, doc) && split.tail != []
    ensures IsSplit(Step(split, b), doc + [b])
  {
    var text := split.tail + [b];
    assert text[1..] == split.tail[1..] + [b];
    ScanAppend(split.tail[1..], b);
    assert doc + [b] == Concat(split.tokens) + text;
    if ScanBody(text[1..]) == Closed {
      ConcatSnoc(split.tokens, Str(text));
      AddPieceKeepsTokens(split.tokens, Str(text));
    }
  }

  /** Every document has a decomposition: its byte-wise split. */
  lemma {:induction false} SplitExists(doc: bytes)
    ensures IsSplit(SplitOf(doc), doc)
  {
    if doc != [] {
      var front, b := doc[..|doc| - 1], doc[|doc| - 1];
      SplitExists(front);
      if SplitOf(front).tail == [] {
        StepOutside(SplitOf(front), front, b);
      } else {
        StepInside(SplitOf(front), front, b);
      }
      assert front + [b] == doc;
    }
  }

  /** The split of the concatenation of whole tokens is those tokens. */
  lemma {:induction false} SplitOfTokens(tokens: seq<Piece>)
    requires AreTokens(tokens)
    ensures SplitOf(Concat(tokens)) == Split(tokens, [])
  {
    if tokens != [] {
      var front, last := tokens[..|tokens| - 1], tokens[|tokens| - 1];
      hide SplitOf, ScanBody, IsStringToken;
      Unsnoc(tokens);
      SplitOfTokens(front);
      if last.Str? {
        SplitString(Concat(front), last.text);
      } else {
        assert front != [] ==> tokens[|tokens| - 2] == front[|front| - 1];
        SplitRun(Concat(front), front, last.text);
      }
    }
  }

  /** A document has one decomposition only, so the pieces carry nothing of the chunks. */
  lemma SplitIsUnique(split: Split, doc: bytes)
    requires IsSplit(split, doc)
    ensures split == SplitOf(doc)
  {
    SplitOfTokens(split.tokens);
    if split.tail == [] {
      assert doc == Concat(split.tokens);
    } else {
      SplitOpen(Concat(split.tokens), split.tail);
    }
  }

  // ---- The streaming splitter ----

  /** `_STRING_STOP.search(s, start)`: the first quote or backslash at or after `start`, or -1. */
  function FindStop(s: bytes, start: nat): (i: int)
    requires start <= |s|
    ensures i == -1 || start <= i < |s|
    ensures i == -1 ==> QUOTE !in s[start..] && BACKSLASH !in s[start..]
    ensures i != -1 ==> (s[i] == QUOTE || s[i] == BACKSLASH) && QUOTE !in s[start..i] && BACKSLASH !in s[start..i]
    decreases |s| - start
  {
    if start == |s| then -1
    else if s[start] == QUOTE || s[start] == BACKSLASH then start
    else FindStop(s, start + 1)
  }

  /** What the splitter knows after reading `doc`: its own variables agree with the split of `doc`. */
  ghost predicate Reading(doc: bytes, pieces: seq<Piece>, inside: bool, text: bytes, escaped: bool) {
    var split := SplitOf(doc);
    && Merge(pieces) == split.tokens
    && (forall i :: 0 <= i < |pieces| ==> IsPiece(pieces[i]))
    && (if inside
        then split.tail == text && text != [] && text[0] == QUOTE && ScanBody(text[1..]) == Open(escaped)
        else split.tail == [])
  }

  lemma ReadRun(doc: bytes, pieces: seq<Piece>, run: bytes)
    requires Reading(doc, pieces, false, [], false)
    requires QUOTE !in run && run != []
    ensures Reading(doc + run, pieces + [Run(run)], false, [], false)
  {
    SplitRun(doc, SplitOf(doc).tokens, run);
    MergeSnoc(pieces, Run(run));
  }

  lemma ReadQuote(doc: bytes, pieces: seq<Piece>)
    requires Reading(doc, pieces, false, [], false)
    ensures Reading(doc + [QUOTE], pieces, true, [QUOTE], false)
  {
    SplitSnoc(doc, QUOTE);
  }

  /** A byte inside a string that does not close it. */
  lemma ReadInside(doc: bytes, pieces: seq<Piece>, text: bytes, escaped: bool, b: byte)
    requires Reading(doc, pieces, true, text, escaped)
    requires escaped || b != QUOTE
    ensures Reading(doc + [b], pieces, true, text + [b], !escaped && b == BACKSLASH)
  {
    SplitSnoc(doc, b);
    ScanAppend(text[1..], b);
    assert (text + [b])[1..] == text[1..] + [b];
  }

  lemma {:induction false} ReadPlain(doc: bytes, pieces: seq<Piece>, text: bytes, plain: bytes)
    requires Reading(doc, pieces, true, text, false)
    requires QUOTE !in plain && BACKSLASH !in plain
    ensures Reading(doc + plain, pieces, true, text + plain, false)
  {
    if plain == [] {
      assert doc + plain == doc && text + plain == text;
    } else {
      var front, b := plain[..|plain| - 1], plain[|plain| - 1];
      ReadPlain(doc, pieces, text, front);
      ReadInside(doc + front, pieces, text + front, false, b);
      assert doc + plain == doc + front + [b] && text + plain == text + front + [b];
    }
  }

  lemma ReadEnd(doc: bytes, pieces: seq<Piece>, text: bytes)
    requires Reading(doc, pieces, true, text, false)
    ensures Reading(doc + [QUOTE], pieces + [Str(text + [QUOTE])], false, [], false)
  {
    SplitSnoc(doc, QUOTE);
    ScanAppend(text[1..], QUOTE);
    assert (text + [QUOTE])[1..] == text[1..] + [QUOTE];
    MergeSnoc(pieces, Str(text + [QUOTE]));
  }

  // The branches of the splitter's loop, between two positions of one chunk.

  lemma RunUpTo(before: bytes, chunk: bytes, from: nat, to: nat, pieces: seq<Piece>)
    requires from < to <= |chunk| && QUOTE !in chunk[from..to]
    requires Reading(before + chunk[..from], pieces, false, [], false)
    ensures Reading(before + chunk[..to], pieces + [Run(chunk[from..to])], false, [], false)
  {
    ReadRun(before + chunk[..from], pieces, chunk[from..to]);
    assert before + chunk[..from] + chunk[from..to] == before + chunk[..to];
  }

  lemma QuoteAt(before: bytes, chunk: bytes, at: nat, pieces: seq<Piece>)
    requires at < |chunk| && chunk[at] == QUOTE
    requires Reading(before + chunk[..at], pieces, false, [], false)
    ensures Reading(before + chunk[..at + 1], pieces, true, [QUOTE], false)
  {
    ReadQuote(before + chunk[..at], pieces);
    assert before + chunk[..at] + [QUOTE] == before + chunk[..at + 1];
  }

  lemma InsideAt(before: bytes, chunk: bytes, at: nat, pieces: seq<Piece>, text: bytes, escaped: bool)
    requires at < |chunk| && (escaped || chunk[at] != QUOTE)
    requires Reading(before + chunk[..at], pieces, true, text, escaped)
    ensures Reading(before + chunk[..at + 1], pieces, true, text + [chunk[at]], !escaped && chunk[at] == BACKSLASH)
  {
    ReadInside(before + chunk[..at], pieces, text, escaped, chunk[at]);
    assert before + chunk[..at] + [chunk[at]] == before + chunk[..at + 1];
  }

  lemma PlainUpTo(before: bytes, chunk: bytes, from: nat, to: nat, pieces: seq<Piece>, text: bytes)
    requires from <= to <= |chunk| && QUOTE !in chunk[from..to] && BACKSLASH !in chunk[from..to]
    requires Reading(before + chunk[..from], pieces, true, text, false)
    ensures Reading(before + chunk[..to], pieces, true, text + chunk[from..to], false)
  {
    ReadPlain(before + chunk[..from], pieces, text, chunk[from..to]);
    assert before + chunk[..from] + chunk[from..to] == before + chunk[..to];
  }

  lemma EndAt(before: bytes, chunk: bytes, at: nat, pieces: seq<Piece>, text: bytes)
    requires at < |chunk| && chunk[at] == QUOTE
    requires Reading(before + chunk[..at], pieces, true, text, false)
    ensures Reading(before + chunk[..at + 1], pieces + [Str(text + [QUOTE])], false, [], false)
  {
    ReadEnd(before + chunk[..at], pieces, text);
    assert before + chunk[..at] + [QUOTE] == before + chunk[..at + 1];
  }

  lemma SnocSlice(text: bytes, chunk: bytes, from: nat, at: nat)
    requires from <= at < |chunk|
    ensures text + chunk[from..at + 1] == text + chunk[from..at] + [chunk[at]]
  {
  }

  /** One turn of the inner loop outside a string: up to and including the next opening quote. */
  method ReadOutside(ghost before: bytes, chunk: bytes, start: nat, pieces0: seq<Piece>)
    returns (pieces: seq<Piece>, inside: bool, text: bytes, position: nat)
    requires start < |chunk| && Reading(before + chunk[..start], pieces0, false, [], false)
    ensures start < position <= |chunk| && Reading(before + chunk[..position], pieces, inside, text, false)
    ensures !inside ==> text == []
  {
    hide Reading;
    pieces := pieces0;
    var quote := Find(chunk, QUOTE, start);
    if quote < 0 {
      RunUpTo(before, chunk, start, |chunk|, pieces);
      ToEnd(chunk, start);
      return pieces + [Run(chunk[start..])], false, [], |chunk|;
    }
    if quote > start {
      RunUpTo(before, chunk, start, quote, pieces);
      pieces := pieces + [Run(chunk[start..quote])];
    }
    QuoteAt(before, chunk, quote, pieces);
    return pieces, true, [QUOTE], quote + 1;
  }

  /** One turn inside a string, after an unescaped byte: up to and including the next quote or backslash. */
  method ReadToStop(ghost before: bytes, chunk: bytes, start: nat, pieces0: seq<Piece>, text0: bytes)
    returns (pieces: seq<Piece>, inside: bool, text: bytes, escaped: bool, position: nat)
    requires start < |chunk| && Reading(before + chunk[..start], pieces0, true, text0, false)
    ensures start < position <= |chunk| && Reading(before + chunk[..position], pieces, inside, text, escaped)
    ensures !inside ==> text == [] && !escaped
  {
    var stop := FindStop(chunk, start);
    if stop < 0 {
      PlainUpTo(before, chunk, start, |chunk|, pieces0, text0);
      ToEnd(chunk, start);
      return pieces0, true, text0 + chunk[start..], false, |chunk|;
    }
    PlainUpTo(before, chunk, start, stop, pieces0, text0);
    SnocSlice(text0, chunk, start, stop);
    text := text0 + chunk[start..stop + 1];
    if chunk[stop] == BACKSLASH {
      InsideAt(before, chunk, stop, pieces0, text0 + chunk[start..stop], false);
      return pieces0, true, text, true, stop + 1;
    } else {
      EndAt(before, chunk, stop, pieces0, text0 + chunk[start..stop]);
      return pieces0 + [Str(text)], false, [], false, stop + 1;
    }
  }

  /** One chunk read: the source's inner loop. */
  method ReadChunk(ghost before: bytes, chunk: bytes, pieces0: seq<Piece>, inside0: bool, text0: bytes, escaped0: bool)
    returns (pieces: seq<Piece>, inside: bool, text: bytes, escaped: bool)
    requires Reading(before, pieces0, inside0, text0, escaped0)
    requires !inside0 ==> text0 == [] && !escaped0
    ensures Reading(before + chunk, pieces, inside, text, escaped)
    ensures !inside ==> text == [] && !escaped
  {
    pieces, inside, text, escaped := pieces0, inside0, text0, escaped0;
    var position, size := 0, |chunk|;
    assert before + chunk[..0] == before;
    while position < size
      invariant 0 <= position <= size
      invariant Reading(before + chunk[..position], pieces, inside, text, escaped)
      invariant !inside ==> text == [] && !escaped
    {
      if !inside {
        pieces, inside, text, position := ReadOutside(before, chunk, position, pieces);
      } else if escaped {
        InsideAt(before, chunk, position, pieces, text, true);
        text := text + [chunk[position]];
        escaped := false;
        position := position + 1;
      } else {
        pieces, inside, text, escaped, position := ReadToStop(before, chunk, position, pieces, text);
      }
    }
    assert chunk[..size] == chunk;
  }

  /**
   * Reads a document in chunks. `complete` is false where the source raises: the document
   * ended inside a string, after `pieces` had been yielded.
   */
  method Pieces(chunks: seq<bytes>) returns (pieces: seq<Piece>, complete: bool)
    ensures Merge(pieces) == SplitOf(Join(chunks)).tokens
    ensures complete <==> SplitOf(Join(chunks)).tail == []
    ensures Concat(pieces) + SplitOf(Join(chunks)).tail == Join(chunks)
    ensures forall i :: 0 <= i < |pieces| ==> IsPiece(pieces[i])
  {
    pieces := [];
    var inside, text: bytes, escaped := false, [], false;
    for n := 0 to |chunks|
      invariant Reading(Join(chunks[..n]), pieces, inside, text, escaped)
      invariant !inside ==> text == [] && !escaped
    {
      pieces, inside, text, escaped := ReadChunk(Join(chunks[..n]), chunks[n], pieces, inside, text, escaped);
      assert chunks[..n + 1] == chunks[..n] + [chunks[n]];
      JoinSnoc(chunks[..n], chunks[n]);
    }
    assert chunks[..|chunks|] == chunks;
    complete := !inside;
    SplitExists(Join(chunks));
    MergeConcat(pieces);
  }
}
