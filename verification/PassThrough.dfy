/** The stored document as the `data` of an API response, non-finite numbers as `null` (`as_api_response`). */
module PassThrough {
  import opened Bytes
  import opened Sequences
  import opened Splitter

  const MINUS_INFINITY: bytes := "-Infinity"
  const INFINITY: bytes := "Infinity"
  const NAN: bytes := "NaN"
  const NULL: bytes := "null"

  const RESPONSE_PREFIX: bytes := "{\"data\": "
  const RESPONSE_SUFFIX: bytes := ", \"error_code\": 0}"
  const FLUSH_BYTES: nat := 1024 * 1024

  /** A byte of one of the three non-finite tokens. */
  predicate NonFiniteByte(b: byte) {
    b == '-' || b == 'I' || b == 'n' || b == 'f' || b == 'i' || b == 't' || b == 'y' || b == 'N' || b == 'a'
  }

  ghost predicate AllNonFinite(s: bytes) {
    forall i :: 0 <= i < |s| ==> NonFiniteByte(s[i])
  }

  /** `s.replace(old, new)`: the leftmost non-overlapping occurrences. */
  function Replace(s: bytes, old_: bytes, new_: bytes): bytes
    requires old_ != []
  {
    if s == [] then []
    else if old_ <= s then new_ + Replace(s[|old_|..], old_, new_)
    else [s[0]] + Replace(s[1..], old_, new_)
  }

  /** The source's three successive replacements. */
  function Nulls(run: bytes): bytes {
    Replace(Replace(Replace(run, MINUS_INFINITY, NULL), INFINITY, NULL), NAN, NULL)
  }

  // ---- Reference: one pass from left to right ----

  /** The length of the non-finite token `s` starts with, 0 when it starts with none. */
  function TokenLength(s: bytes): (n: nat)
    ensures n <= |s|
  {
    if MINUS_INFINITY <= s then 9 else if INFINITY <= s then 8 else if NAN <= s then 3 else 0
  }

  function NullsOf(s: bytes): bytes {
    if s == [] then []
    else
      var n := TokenLength(s);
      if n > 0 then NULL + NullsOf(s[n..]) else [s[0]] + NullsOf(s[1..])
  }

  ghost predicate NoTokens(s: bytes) {
    forall i :: 0 <= i <= |s| ==> TokenLength(s[i..]) == 0
  }

  // ---- The three replacements are the single pass ----

  lemma ReplaceSkips(b: byte, s: bytes, old_: bytes, new_: bytes)
    requires old_ != [] && !(old_ <= [b] + s)
    ensures Replace([b] + s, old_, new_) == [b] + Replace(s, old_, new_)
  {
    assert ([b] + s)[1..] == s;
  }

  /** Bytes that no occurrence of `old_` can start with pass through. */
  lemma {:induction false} ReplaceSkipsAll(front: bytes, s: bytes, old_: bytes, new_: bytes)
    requires old_ != [] && old_[0] !in front
    ensures Replace(front + s, old_, new_) == front + Replace(s, old_, new_)
  {
    if front == [] {
      assert front + s == s;
    } else {
      ReplaceSkipsAll(front[1..], s, old_, new_);
      ReplaceSkips(front[0], front[1..] + s, old_, new_);
      assert front + s == [front[0]] + (front[1..] + s);
      assert [front[0]] + (front[1..] + Replace(s, old_, new_)) == front + Replace(s, old_, new_);
    }
  }

  lemma ReplaceFront(s: bytes, old_: bytes, new_: bytes)
    requires old_ != []
    ensures Replace(old_ + s, old_, new_) == new_ + Replace(s, old_, new_)
  {
    assert (old_ + s)[|old_|..] == s;
  }

  /** No suffix of `w` could have come out of a replacement by `null`. */
  predicate NotFromNull(w: bytes) {
    forall i :: 0 <= i < |w| && w[i] == 'n' ==> i + 1 < |w| && w[i + 1] != 'u'
  }

  lemma NoNullPrefix(w: bytes, r: bytes)
    requires w != [] && NotFromNull(w)
    ensures !(w <= NULL + r)
  {
    assert (NULL + r)[0] == 'n' && (NULL + r)[1] == 'u';
  }

  /** A replacement by `null` does not create occurrences of such a `w`. */
  lemma {:induction false} NothingNew(s: bytes, old_: bytes, w: bytes)
    requires old_ != [] && NotFromNull(w)
    requires w <= Replace(s, old_, NULL)
    ensures w <= s
  {
    if w != [] {
      if old_ <= s {
        NoNullPrefix(w, Replace(s[|old_|..], old_, NULL));
        assert false;
      } else {
        var r := Replace(s[1..], old_, NULL);
        assert Replace(s, old_, NULL) == [s[0]] + r;
        assert w[1..] <= r by {
          assert forall i :: 0 <= i < |w| - 1 ==> w[1..][i] == w[i + 1] == ([s[0]] + r)[i + 1] == r[i];
        }
        NothingNew(s[1..], old_, w[1..]);
        assert w == [w[0]] + w[1..] && s == [s[0]] + s[1..];
      }
    }
  }

  lemma NullsToken(s: bytes, token: bytes)
    requires token == MINUS_INFINITY || token == INFINITY || token == NAN
    ensures Nulls(token + s) == NULL + Nulls(s)
  {
    var first := Replace(s, MINUS_INFINITY, NULL);
    var second := Replace(first, INFINITY, NULL);
    if token == MINUS_INFINITY {
      ReplaceFront(s, MINUS_INFINITY, NULL);
      ReplaceSkipsAll(NULL, first, INFINITY, NULL);
      ReplaceSkipsAll(NULL, second, NAN, NULL);
    } else if token == INFINITY {
      ReplaceSkipsAll(INFINITY, s, MINUS_INFINITY, NULL);
      ReplaceFront(first, INFINITY, NULL);
      ReplaceSkipsAll(NULL, second, NAN, NULL);
    } else {
      ReplaceSkipsAll(NAN, s, MINUS_INFINITY, NULL);
      ReplaceSkipsAll(NAN, first, INFINITY, NULL);
      ReplaceFront(second, NAN, NULL);
    }
  }

  /** A token that a replacement lets start at `b` was already there. */
  lemma NothingNewAt(b: byte, s: bytes, old_: bytes, token: bytes)
    requires old_ != [] && token != [] && NotFromNull(token[1..])
    requires token <= [b] + Replace(s, old_, NULL)
    ensures token <= [b] + s
  {
    var r := Replace(s, old_, NULL);
    assert forall i :: 0 <= i < |token| - 1 ==> token[1..][i] == token[i + 1] == ([b] + r)[i + 1] == r[i];
    NothingNew(s, old_, token[1..]);
    assert token == [token[0]] + token[1..];
    assert token[0] == b;
  }

  lemma NullsByte(b: byte, s: bytes)
    requires TokenLength([b] + s) == 0
    ensures Nulls([b] + s) == [b] + Nulls(s)
  {
    var first := Replace(s, MINUS_INFINITY, NULL);
    var second := Replace(first, INFINITY, NULL);
    ReplaceSkips(b, s, MINUS_INFINITY, NULL);
    if INFINITY <= [b] + first {
      NothingNewAt(b, s, MINUS_INFINITY, INFINITY);
      assert false;
    }
    ReplaceSkips(b, first, INFINITY, NULL);
    if NAN <= [b] + second {
      NothingNewAt(b, first, INFINITY, NAN);
      NothingNewAt(b, s, MINUS_INFINITY, NAN);
      assert false;
    }
    ReplaceSkips(b, second, NAN, NULL);
  }

  lemma {:induction false} NullsIsOnePass(run: bytes)
    ensures Nulls(run) == NullsOf(run)
  {
    if run != [] {
      var n := TokenLength(run);
      if n > 0 {
        NullsIsOnePass(run[n..]);
        assert run == run[..n] + run[n..];
        NullsToken(run[n..], run[..n]);
      } else {
        NullsIsOnePass(run[1..]);
        assert run == [run[0]] + run[1..];
        NullsByte(run[0], run[1..]);
      }
    }
  }

  // ---- What the single pass does ----

  /** Cutting behind a byte of no token cuts no token. */
  lemma {:induction false} NullsOfSplits(d: bytes, y: bytes)
    requires d == [] || !NonFiniteByte(d[|d| - 1])
    ensures NullsOf(d + y) == NullsOf(d) + NullsOf(y)
  {
    if d == [] {
      assert d + y == y;
    } else {
      CutKeepsTokens(d, y);
      var n := TokenLength(d);
      if n > 0 {
        NullsOfSplits(d[n..], y);
        DropAppend(d, y, n);
        Assoc(NULL, NullsOf(d[n..]), NullsOf(y));
      } else {
        NullsOfSplits(d[1..], y);
        DropAppend(d, y, 1);
        Assoc([d[0]], NullsOf(d[1..]), NullsOf(y));
      }
    }
  }

  lemma CutKeepsToken(d: bytes, y: bytes, token: bytes)
    requires d != [] && !NonFiniteByte(d[|d| - 1])
    requires AllNonFinite(token)
    ensures token <= d + y <==> token <= d
  {
    var b := |d| - 1;
    assert (d + y)[b] == d[b];
    if b < |token| {
      assert NonFiniteByte(token[b]);
    } else {
      assert (d + y)[..|token|] == d[..|token|];
    }
  }

  lemma CutKeepsTokens(d: bytes, y: bytes)
    requires d != [] && !NonFiniteByte(d[|d| - 1])
    ensures TokenLength(d + y) == TokenLength(d)
  {
    CutKeepsToken(d, y, MINUS_INFINITY);
    CutKeepsToken(d, y, INFINITY);
    CutKeepsToken(d, y, NAN);
  }

  /** A prefix of the result that no `null` could have begun is a prefix of the run. */
  lemma {:induction false} NothingNewOnePass(s: bytes, w: bytes)
    requires NotFromNull(w) && w <= NullsOf(s)
    ensures w <= s
  {
    if w != [] {
      var n := TokenLength(s);
      if n > 0 {
        NoNullPrefix(w, NullsOf(s[n..]));
        assert false;
      } else {
        RestIsPrefix(w, s[0], NullsOf(s[1..]));
        NothingNewOnePass(s[1..], w[1..]);
        hide NullsOf, TokenLength;
        assert w == [w[0]] + w[1..] && s == [s[0]] + s[1..];
      }
    }
  }

  lemma RestIsPrefix(w: bytes, b: byte, r: bytes)
    requires w != [] && w <= [b] + r
    ensures w[0] == b && w[1..] <= r
  {
    assert forall i :: 0 <= i < |w| - 1 ==> w[1..][i] == w[i + 1] == ([b] + r)[i + 1] == r[i];
  }

  lemma NothingNewOnePassAt(b: byte, s: bytes, token: bytes)
    requires token != [] && NotFromNull(token[1..])
    requires token <= [b] + NullsOf(s)
    ensures token <= [b] + s
  {
    RestIsPrefix(token, b, NullsOf(s));
    NothingNewOnePass(s, token[1..]);
    hide NullsOf;
    assert token == [token[0]] + token[1..];
  }

  lemma NoTokenAt(b: byte, s: bytes)
    requires TokenLength([b] + s) == 0
    ensures TokenLength([b] + NullsOf(s)) == 0
  {
    if MINUS_INFINITY <= [b] + NullsOf(s) {
      NothingNewOnePassAt(b, s, MINUS_INFINITY);
    }
    if INFINITY <= [b] + NullsOf(s) {
      NothingNewOnePassAt(b, s, INFINITY);
    }
    if NAN <= [b] + NullsOf(s) {
      NothingNewOnePassAt(b, s, NAN);
    }
  }

  lemma {:induction false} NullsOfLeavesNone(s: bytes)
    ensures NoTokens(NullsOf(s))
  {
    if s != [] {
      var n := TokenLength(s);
      if n > 0 {
        var r := NullsOf(s[n..]);
        NullsOfLeavesNone(s[n..]);
        forall i | 0 <= i <= |NULL + r| ensures TokenLength((NULL + r)[i..]) == 0 {
          if i >= 4 {
            assert (NULL + r)[i..] == r[i - 4..];
          } else {
            assert (NULL + r)[i..][0] == NULL[i];
            if i == 0 { assert (NULL + r)[i..][1] == 'u'; }
          }
        }
      } else {
        var r := NullsOf(s[1..]);
        NullsOfLeavesNone(s[1..]);
        assert s == [s[0]] + s[1..];
        NoTokenAt(s[0], s[1..]);
        forall i | 0 <= i <= |[s[0]] + r| ensures TokenLength(([s[0]] + r)[i..]) == 0 {
          if i >= 1 {
            assert ([s[0]] + r)[i..] == r[i - 1..];
          }
        }
      }
    }
  }

  lemma {:induction false} NullsOfNothing(s: bytes)
    requires NoTokens(s)
    ensures NullsOf(s) == s
  {
    if s != [] {
      assert s[0..] == s;
      forall i | 0 <= i <= |s[1..]| ensures TokenLength(s[1..][i..]) == 0 {
        assert s[1..][i..] == s[i + 1..];
      }
      NullsOfNothing(s[1..]);
    }
  }

  lemma {:induction false} NullsOfKeepsQuotesOut(s: bytes)
    requires QUOTE !in s
    ensures QUOTE !in NullsOf(s) && (s != [] ==> NullsOf(s) != [])
  {
    if s != [] {
      var n := TokenLength(s);
      NullsOfKeepsQuotesOut(if n > 0 then s[n..] else s[1..]);
    }
  }

  // ---- The document ----

  function NulledPiece(piece: Piece): Piece {
    match piece
    case Str(s) => piece
    case Run(s) => Run(NullsOf(s))
  }

  /** Every run with its non-finite numbers replaced, every string as it is. */
  function Nulled(tokens: seq<Piece>): seq<Piece> {
    seq(|tokens|, i requires 0 <= i < |tokens| => NulledPiece(tokens[i]))
  }

  /** The reference: the document with each non-finite token outside its strings replaced by `null`. */
  function NulledDocument(doc: bytes): bytes {
    Concat(Nulled(SplitOf(doc).tokens)) + SplitOf(doc).tail
  }

  lemma NulledSnoc(tokens: seq<Piece>, piece: Piece)
    ensures Concat(Nulled(tokens + [piece])) == Concat(Nulled(tokens)) + NulledPiece(piece).text
  {
    assert Nulled(tokens + [piece]) == Nulled(tokens) + [NulledPiece(piece)];
    ConcatSnoc(Nulled(tokens), NulledPiece(piece));
  }

  /**
   * The replaced document has the strings of the original in the same order, and between
   * them the replaced runs, in which no non-finite token is left.
   */
  lemma NulledDocumentSplit(doc: bytes)
    ensures SplitOf(NulledDocument(doc)) == Split(Nulled(SplitOf(doc).tokens), SplitOf(doc).tail)
    ensures forall i :: 0 <= i < |SplitOf(doc).tokens| && SplitOf(doc).tokens[i].Run? ==>
              NoTokens(SplitOf(NulledDocument(doc)).tokens[i].text)
  {
    var split := SplitOf(doc);
    SplitExists(doc);
    forall i | 0 <= i < |split.tokens|
      ensures IsPiece(Nulled(split.tokens)[i])
      ensures split.tokens[i].Run? ==> NoTokens(Nulled(split.tokens)[i].text)
    {
      if split.tokens[i].Run? {
        NullsOfKeepsQuotesOut(split.tokens[i].text);
        NullsOfLeavesNone(split.tokens[i].text);
      }
    }
    SplitIsUnique(Split(Nulled(split.tokens), split.tail), NulledDocument(doc));
  }

  /** A document whose runs hold no non-finite token passes byte for byte. */
  lemma NulledDocumentUnchanged(doc: bytes)
    requires forall i :: 0 <= i < |SplitOf(doc).tokens| && SplitOf(doc).tokens[i].Run? ==>
        NoTokens(SplitOf(doc).tokens[i].text)
    ensures NulledDocument(doc) == doc
  {
    var tokens := SplitOf(doc).tokens;
    forall i | 0 <= i < |tokens| ensures Nulled(tokens)[i] == tokens[i] {
      if tokens[i].Run? {
        NullsOfNothing(tokens[i].text);
      }
    }
    assert Nulled(tokens) == tokens;
    SplitExists(doc);
  }

  // ---- The stream ----

  /** The run the tokens end with, if any, and the tokens before it. */
  function LastRun(tokens: seq<Piece>): bytes {
    if tokens != [] && tokens[|tokens| - 1].Run? then tokens[|tokens| - 1].text else []
  }

  function BeforeLastRun(tokens: seq<Piece>): seq<Piece> {
    if tokens != [] && tokens[|tokens| - 1].Run? then tokens[..|tokens| - 1] else tokens
  }

  /** Of the last run, `done` has been sent and `held` is still kept back. */
  ghost predicate Sent(tokens: seq<Piece>, sent: bytes, done: bytes, held: bytes) {
    && LastRun(tokens) == done + held
    && AllNonFinite(held)
    && (done == [] || !NonFiniteByte(done[|done| - 1]))
    && sent == RESPONSE_PREFIX + Concat(Nulled(BeforeLastRun(tokens))) + NullsOf(done)
  }

  /** The last run without what is held back of it. */
  function Unheld(tokens: seq<Piece>, held: bytes): bytes {
    var run := LastRun(tokens);
    if |held| <= |run| then run[..|run| - |held|] else []
  }

  lemma SentUnheld(tokens: seq<Piece>, sent: bytes, done: bytes, held: bytes)
    requires Sent(tokens, sent, done, held)
    ensures Unheld(tokens, held) == done
  {
  }

  lemma NulledLastRun(tokens: seq<Piece>)
    ensures Concat(Nulled(tokens)) == Concat(Nulled(BeforeLastRun(tokens))) + NullsOf(LastRun(tokens))
  {
    if tokens != [] && tokens[|tokens| - 1].Run? {
      Unsnoc(tokens);
      NulledSnoc(tokens[..|tokens| - 1], tokens[|tokens| - 1]);
    }
  }

  /** Replacing what is held back completes the tokens so far. */
  lemma SentAll(tokens: seq<Piece>, sent: bytes, done: bytes, held: bytes)
    requires Sent(tokens, sent, done, held)
    ensures sent + Nulls(held) == RESPONSE_PREFIX + Concat(Nulled(tokens))
  {
    NullsIsOnePass(held);
    NullsOfSplits(done, held);
    NulledLastRun(tokens);
    var front := Concat(Nulled(BeforeLastRun(tokens)));
    Assoc(RESPONSE_PREFIX + front, NullsOf(done), NullsOf(held));
    Assoc(RESPONSE_PREFIX, front, NullsOf(done) + NullsOf(held));
  }

  lemma SentString(tokens: seq<Piece>, sent: bytes, done: bytes, held: bytes, text: bytes)
    requires Sent(tokens, sent, done, held)
    ensures Sent(AddPiece(tokens, Str(text)), sent + Nulls(held) + text, [], [])
  {
    SentAll(tokens, sent, done, held);
    NulledSnoc(tokens, Str(text));
    Assoc(RESPONSE_PREFIX, Concat(Nulled(tokens)), text);
  }

  lemma AddRunLast(tokens: seq<Piece>, piece: bytes)
    requires piece != []
    ensures LastRun(AddPiece(tokens, Run(piece))) == LastRun(tokens) + piece
    ensures BeforeLastRun(AddPiece(tokens, Run(piece))) == BeforeLastRun(tokens)
  {
  }

  lemma SentRun(tokens: seq<Piece>, sent: bytes, done: bytes, held: bytes, piece: bytes, front: bytes, back: bytes)
    requires Sent(tokens, sent, done, held) && piece != []
    requires held + piece == front + back && AllNonFinite(back)
    requires front == [] || !NonFiniteByte(front[|front| - 1])
    ensures Sent(AddPiece(tokens, Run(piece)), sent + Nulls(front), done + front, back)
  {
    AddRunLast(tokens, piece);
    NullsIsOnePass(front);
    NullsOfSplits(done, front);
    Assoc(done, held, piece);
    Assoc(done, front, back);
    Assoc(RESPONSE_PREFIX + Concat(Nulled(BeforeLastRun(tokens))), NullsOf(done), NullsOf(front));
  }

  /** `cut` in the source: where the letters the run ends with begin. */
  method CutRun(run: bytes) returns (cut: nat)
    ensures cut <= |run| && AllNonFinite(run[cut..])
    ensures cut == 0 || !NonFiniteByte(run[cut - 1])
  {
    cut := |run|;
    while cut > 0 && NonFiniteByte(run[cut - 1])
      invariant 0 <= cut <= |run|
      invariant AllNonFinite(run[cut..])
    {
      cut := cut - 1;
    }
  }

  /** One turn of the source's loop, up to the flush. */
  method AddToResponse(ghost flushed: bytes, ghost tokens: seq<Piece>, out0: bytes, held0: bytes, piece: Piece)
    returns (out: bytes, held: bytes)
    requires IsPiece(piece) && Sent(tokens, flushed + out0, Unheld(tokens, held0), held0)
    ensures Sent(AddPiece(tokens, piece), flushed + out, Unheld(AddPiece(tokens, piece), held), held)
  {
    ghost var done0 := Unheld(tokens, held0);
    if piece.Str? {
      SentString(tokens, flushed + out0, done0, held0, piece.text);
      AssocThree(flushed, out0, Nulls(held0), piece.text);
      Assoc(flushed, out0, Nulls(held0));
      out, held := out0 + Nulls(held0) + piece.text, [];
      SentUnheld(AddPiece(tokens, piece), flushed + out, [], held);
    } else {
      var run := held0 + piece.text;
      var cut := CutRun(run);
      assert run == run[..cut] + run[cut..];
      SentRun(tokens, flushed + out0, done0, held0, piece.text, run[..cut], run[cut..]);
      Assoc(flushed, out0, Nulls(run[..cut]));
      out, held := out0 + Nulls(run[..cut]), run[cut..];
      SentUnheld(AddPiece(tokens, piece), flushed + out, done0 + run[..cut], held);
    }
  }

  /**
   * The response body, yield by yield. `complete` is false where the source raises, because
   * the document ends inside a string; what it had yielded by then is a beginning of the
   * replaced document.
   */
  method AsApiResponse(chunks: seq<bytes>) returns (body: seq<bytes>, complete: bool)
    ensures complete <==> SplitOf(Join(chunks)).tail == []
    ensures complete ==> Join(body) == RESPONSE_PREFIX + NulledDocument(Join(chunks)) + RESPONSE_SUFFIX
    ensures !complete ==> Join(body) <= RESPONSE_PREFIX + NulledDocument(Join(chunks))
    ensures forall i :: 0 <= i < |body| - (if complete then 1 else 0) ==> |body[i]| >= FLUSH_BYTES
  {
    hide NulledDocument, Sent, SplitOf, Nulls, Unheld;
    var pieces;
    pieces, complete := Pieces(chunks);
    body := [];
    var out, held: bytes := RESPONSE_PREFIX, [];
    NothingSent();
    NothingBefore(out);
    assert pieces[..0] == [] && Merge([]) == [];
    for k := 0 to |pieces|
      invariant Sent(Merge(pieces[..k]), Join(body) + out, Unheld(Merge(pieces[..k]), held), held)
      invariant forall i :: 0 <= i < |body| ==> |body[i]| >= FLUSH_BYTES
    {
      TakeOne(pieces, k);
      MergeSnoc(pieces[..k], pieces[k]);
      out, held := AddToResponse(Join(body), Merge(pieces[..k]), out, held, pieces[k]);
      if |out| >= FLUSH_BYTES {
        JoinSnoc(body, out);
        NothingAfter(Join(body) + out);
        body := body + [out];
        out := [];
      }
    }
    assert pieces[..|pieces|] == pieces;
    LastYield(Join(chunks), Join(body), out, Unheld(Merge(pieces), held), held);
    if complete {
      JoinSnoc(body, out + Nulls(held) + RESPONSE_SUFFIX);
      body := body + [out + Nulls(held) + RESPONSE_SUFFIX];
    }
  }

  lemma NothingSent()
    ensures Sent([], RESPONSE_PREFIX, [], []) && Unheld([], []) == []
  {
    assert RESPONSE_PREFIX + Concat(Nulled([])) == RESPONSE_PREFIX;
  }

  lemma LastYield(doc: bytes, flushed: bytes, out: bytes, done: bytes, held: bytes)
    requires Sent(SplitOf(doc).tokens, flushed + out, done, held)
    ensures SplitOf(doc).tail == [] ==>
              flushed + (out + Nulls(held) + RESPONSE_SUFFIX) == RESPONSE_PREFIX + NulledDocument(doc) + RESPONSE_SUFFIX
    ensures flushed <= RESPONSE_PREFIX + NulledDocument(doc)
  {
    var nulled := Concat(Nulled(SplitOf(doc).tokens));
    SentAll(SplitOf(doc).tokens, flushed + out, done, held);
    Assoc(flushed, out, Nulls(held));
    AssocThree(flushed, out, Nulls(held), RESPONSE_SUFFIX);
    NothingAfter(nulled);
    PrefixOf(flushed, out + Nulls(held), SplitOf(doc).tail);
    Assoc(RESPONSE_PREFIX, nulled, SplitOf(doc).tail);
  }
}
