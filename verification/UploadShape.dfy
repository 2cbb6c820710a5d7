/** The data rows the API counts in a CSV upload, against those a reader finds in it. */
module UploadShape {
  import opened Options
  import opened Bytes
  import opened Sequences
  import P = Preflight

  // ---- The count ----

  /** `content.lstrip(b"\r\n")` */
  function SkipEnds(s: bytes): bytes {
    if s != [] && (s[0] == '\r' || s[0] == '\n') then SkipEnds(s[1..]) else s
  }

  function LineFeeds(s: bytes): nat {
    if s == [] then 0 else LineFeeds(s[..|s| - 1]) + if s[|s| - 1] == '\n' then 1 else 0
  }

  /** The rows `_measure_csv` reports; None where the upload passes without a count. */
  function CountedRows(content: bytes): Option<nat> {
    var s := SkipEnds(content);
    if s == [] then None
    else if s[|s| - 1] == '\n' then Some(LineFeeds(s) - 1)
    else Some(LineFeeds(s))
  }

  // ---- The reader ----

  /**
   * A kind of reader: what separates fields, whether a carriage return alone ends a record, and
   * whether a line of spaces is blank.
   */
  datatype Reader = Reader(separator: byte, returnEnds: bool, skipsSpaces: bool)

  /** `pd.read_csv` with nothing else said, as `parse_file` calls it. */
  const PANDAS := Reader(',', true, true)

  /** Where in a field a reader is: `Closed` is behind a quote inside quotes, which may close them. */
  datatype Field = Start | Plain | Quoted | Closed

  /**
   * Reading records (RFC 4180, section 2): where in a field the reader is, whether the record is
   * blank so far, how many line feeds it holds, and the records that are complete.
   */
  datatype Records = Records(field: Field, blank: bool, held: nat, complete: nat)

  /** A quote opens a field at its start only; inside quotes, two are one. */
  function NextField(f: Field, b: byte, reader: Reader): Field {
    match f
    case Quoted => if b == QUOTE then Closed else Quoted
    case Closed => if b == QUOTE then Quoted else if b == reader.separator then Start else Plain
    case Start => if b == QUOTE then Quoted else if b == reader.separator || b == '\r' then Start else Plain
    case Plain => if b == reader.separator then Start else Plain
  }

  /** Bytes that leave a record blank. */
  predicate IsBlank(b: byte, reader: Reader) {
    b == '\r' || (reader.skipsSpaces && (b == ' ' || b == '\t') && b != reader.separator)
  }

  /** One byte. A line end outside quotes ends a record; blank records are skipped. */
  function ReadByte(r: Records, b: byte, reader: Reader): Records {
    if !r.field.Quoted? && (b == '\n' || (reader.returnEnds && b == '\r')) then
      Records(Start, true, 0, if r.blank then r.complete else r.complete + 1)
    else
      Records(NextField(r.field, b, reader), r.blank && IsBlank(b, reader),
              if b == '\n' then r.held + 1 else r.held, r.complete)
  }

  /** What a reader knows after `s`. */
  function ReadRecords(s: bytes, reader: Reader): Records {
    if s == [] then Records(Start, true, 0, 0)
    else ReadByte(ReadRecords(s[..|s| - 1], reader), s[|s| - 1], reader)
  }

  /** The records of a document, its header among them; the last one need not be ended. */
  function RecordCount(s: bytes, reader: Reader): nat {
    var r := ReadRecords(s, reader);
    r.complete + if r.blank then 0 else 1
  }

  function DataRows(s: bytes, reader: Reader): nat {
    if RecordCount(s, reader) == 0 then 0 else RecordCount(s, reader) - 1
  }

  // ---- The count never falls short ----

  /** Every complete record has used a line feed of its own. */
  lemma {:induction false} FeedsUsed(s: bytes, reader: Reader)
    requires !reader.returnEnds
    ensures ReadRecords(s, reader).complete + ReadRecords(s, reader).held <= LineFeeds(s)
    ensures s != [] && s[|s| - 1] == '\n' && !ReadRecords(s, reader).blank ==> ReadRecords(s, reader).held > 0
  {
    if s != [] {
      FeedsUsed(s[..|s| - 1], reader);
    }
  }

  /** Line ends before the first record leave nothing behind. */
  lemma {:induction false} BlankStart(a: bytes, s: bytes, reader: Reader)
    requires forall i :: 0 <= i < |a| ==> a[i] == '\r' || a[i] == '\n'
    ensures ReadRecords(a + s, reader) == ReadRecords(s, reader)
    decreases |s|, |a|
  {
    if s != [] {
      BlankStart(a, s[..|s| - 1], reader);
      Assoc(a, s[..|s| - 1], [s[|s| - 1]]);
      Unsnoc(s);
      SnocFront(a + s[..|s| - 1], s[|s| - 1]);
    } else if a != [] {
      BlankStart(a[..|a| - 1], [], reader);
      NothingAfter(a);
      NothingAfter(a[..|a| - 1]);
    }
  }

  lemma {:induction false} SkipEndsDrops(s: bytes) returns (a: bytes)
    ensures s == a + SkipEnds(s) && forall i :: 0 <= i < |a| ==> a[i] == '\r' || a[i] == '\n'
    ensures SkipEnds(s) != [] ==> SkipEnds(s)[0] != '\r' && SkipEnds(s)[0] != '\n'
  {
    if s != [] && (s[0] == '\r' || s[0] == '\n') {
      var rest := SkipEndsDrops(s[1..]);
      a := [s[0]] + rest;
      Assoc([s[0]], rest, SkipEnds(s[1..]));
      assert s == [s[0]] + s[1..];
    } else {
      a := [];
    }
  }

  /**
   * The count is at least the data rows of any reader that ends records at line feeds; without a
   * count there are none.
   */
  lemma CountIsEnough(content: bytes, reader: Reader)
    requires !reader.returnEnds
    ensures CountedRows(content).Some? ==> CountedRows(content).value >= DataRows(content, reader)
    ensures CountedRows(content).None? ==> DataRows(content, reader) == 0
  {
    var a := SkipEndsDrops(content);
    var s := SkipEnds(content);
    BlankStart(a, s, reader);
    FeedsUsed(s, reader);
    assert s != [] ==> s[..|s| - 1] + [s[|s| - 1]] == s;
  }

  // ---- Readers that also end records at a carriage return ----

  /** The records the reader ends at a carriage return: none, unless it is of that kind. */
  function EndedByReturn(s: bytes, reader: Reader): nat {
    if s == [] then 0
    else
      var r := ReadRecords(s[..|s| - 1], reader);
      var ends := reader.returnEnds && s[|s| - 1] == '\r' && !r.field.Quoted? && !r.blank;
      EndedByReturn(s[..|s| - 1], reader) + if ends then 1 else 0
  }

  /** The line feeds that end no record: of blank lines, behind a carriage return, inside quotes. */
  function IdleFeeds(s: bytes, reader: Reader): nat {
    if s == [] then 0
    else
      var r := ReadRecords(s[..|s| - 1], reader);
      IdleFeeds(s[..|s| - 1], reader) + if s[|s| - 1] == '\n' && (r.field.Quoted? || r.blank) then 1 else 0
  }

  /**
   * The records ended by a carriage return, and one left open, are no more than the line feeds that
   * end none, and the end of the document where that is no line feed.
   */
  predicate ReturnsArePaid(content: bytes, reader: Reader) {
    var s := SkipEnds(content);
    EndedByReturn(s, reader) + (if ReadRecords(s, reader).blank then 0 else 1)
    <= IdleFeeds(s, reader) + (if s != [] && s[|s| - 1] == '\n' then 0 else 1)
  }

  /** Every record is ended by a line feed or a carriage return, every line feed ends a record or is idle. */
  lemma {:induction false} EndsBalance(s: bytes, reader: Reader)
    ensures ReadRecords(s, reader).complete + IdleFeeds(s, reader) == LineFeeds(s) + EndedByReturn(s, reader)
  {
    if s != [] {
      EndsBalance(s[..|s| - 1], reader);
    }
  }

  lemma {:induction false} EndedAreComplete(s: bytes, reader: Reader)
    ensures EndedByReturn(s, reader) <= ReadRecords(s, reader).complete
  {
    if s != [] {
      EndedAreComplete(s[..|s| - 1], reader);
    }
  }

  /** For any reader the count is enough exactly when that holds of the upload's bytes. */
  lemma CountIsEnoughExactly(content: bytes, reader: Reader)
    ensures CountedRows(content).Some? ==>
              (CountedRows(content).value >= DataRows(content, reader) <==> ReturnsArePaid(content, reader))
    ensures CountedRows(content).None? ==> DataRows(content, reader) == 0
  {
    var a := SkipEndsDrops(content);
    var s := SkipEnds(content);
    BlankStart(a, s, reader);
    if s != [] {
      EndsBalance(s, reader);
      EndedAreComplete(s, reader);
    }
  }

  /** ... and it is the number of rows exactly when both are the same. */
  lemma CountIsRightExactly(content: bytes, reader: Reader)
    requires RecordCount(content, reader) > 0
    ensures CountedRows(content).Some?
    ensures CountedRows(content).value == DataRows(content, reader) <==> ReturnsAreEven(content, reader)
  {
    var a := SkipEndsDrops(content);
    var s := SkipEnds(content);
    BlankStart(a, s, reader);
    EndsBalance(s, reader);
  }

  predicate ReturnsAreEven(content: bytes, reader: Reader) {
    var s := SkipEnds(content);
    EndedByReturn(s, reader) + (if ReadRecords(s, reader).blank then 0 else 1)
    == IdleFeeds(s, reader) + (if s != [] && s[|s| - 1] == '\n' then 0 else 1)
  }

  /** A document of lines that all hold something, without quotes and carriage returns. */
  ghost predicate IsPlain(content: bytes, reader: Reader) {
    && content != [] && QUOTE !in content && '\r' !in content
    && (forall i :: 0 <= i < |content| && content[i] == '\n' ==> !ReadRecords(content[..i], reader).blank)
    && (content[|content| - 1] != '\n' ==> !ReadRecords(content, reader).blank)
  }

  lemma {:induction false} PlainRecords(s: bytes, n: nat, reader: Reader)
    requires n <= |s| && QUOTE !in s && '\r' !in s
    requires forall i :: 0 <= i < |s| && s[i] == '\n' ==> !ReadRecords(s[..i], reader).blank
    ensures var r := ReadRecords(s[..n], reader);
            r.field != Quoted && r.field != Closed && r.complete == LineFeeds(s[..n])
            && (n > 0 && s[n - 1] == '\n' ==> r.blank)
  {
    if n > 0 {
      PlainRecords(s, n - 1, reader);
      assert s[..n][..n - 1] == s[..n - 1];
    }
  }

  /** The count of such a document is the number of its data rows, for any reader. */
  lemma PlainCountIsRight(content: bytes, reader: Reader)
    requires IsPlain(content, reader)
    ensures CountedRows(content) == Some(DataRows(content, reader))
  {
    assert content[0] != '\n' by {
      assert content[..0] == [];
    }
    assert SkipEnds(content) == content;
    PlainRecords(content, |content|, reader);
    assert content[..|content|] == content;
    SomeFeed(content);
  }

  lemma SomeFeed(s: bytes)
    ensures s != [] && s[|s| - 1] == '\n' ==> LineFeeds(s) > 0
  {
  }

  /** Every carriage return outside quotes has its line feed. */
  predicate ReturnsArePaired(content: bytes, reader: Reader) {
    forall i :: 0 <= i < |content| && content[i] == '\r' && !ReadRecords(content[..i], reader).field.Quoted? ==>
      i + 1 < |content| && content[i + 1] == '\n'
  }

  /** A carriage return outside quotes that is the last byte read. */
  predicate AwaitsFeed(s: bytes, reader: Reader) {
    s != [] && s[|s| - 1] == '\r' && !ReadRecords(s[..|s| - 1], reader).field.Quoted?
  }

  /** Each record ended by a carriage return has an idle line feed behind it, or awaits it. */
  lemma {:induction false} ReturnsPayOff(s: bytes, n: nat, reader: Reader)
    requires reader.returnEnds && n <= |s| && ReturnsArePaired(s, reader)
    ensures EndedByReturn(s[..n], reader) + ReadRecords(s[..n], reader).held
            <= IdleFeeds(s[..n], reader) + (if AwaitsFeed(s[..n], reader) then 1 else 0)
  {
    if n > 0 {
      ReturnsPayOff(s, n - 1, reader);
      assert s[..n][..n - 1] == s[..n - 1];
      if AwaitsFeed(s[..n - 1], reader) {
        assert s[..n - 1][..n - 2] == s[..n - 2];
        assert s[n - 2] == '\r' && s[n - 1] == '\n';
      }
    }
  }

  /** Bytes before the first record change nothing of the pairing. */
  lemma PairedTail(a: bytes, s: bytes, reader: Reader)
    requires (forall i :: 0 <= i < |a| ==> a[i] == '\r' || a[i] == '\n') && ReturnsArePaired(a + s, reader)
    ensures ReturnsArePaired(s, reader)
  {
    var content := a + s;
    forall i | 0 <= i < |s| && s[i] == '\r' && !ReadRecords(s[..i], reader).field.Quoted?
      ensures i + 1 < |s| && s[i + 1] == '\n'
    {
      BlankStart(a, s[..i], reader);
      assert content[..|a| + i] == a + s[..i];
      assert content[|a| + i] == '\r';
      assert content[|a| + i + 1] == '\n';
    }
  }

  /** So it is enough for every upload whose carriage returns outside quotes are followed by a line feed. */
  lemma PairedIsEnough(content: bytes, reader: Reader)
    requires reader.returnEnds && ReturnsArePaired(content, reader)
    ensures ReturnsArePaid(content, reader)
    ensures CountedRows(content).Some? ==> CountedRows(content).value >= DataRows(content, reader)
  {
    var a := SkipEndsDrops(content);
    var s := SkipEnds(content);
    PairedTail(a, s, reader);
    PairedIsPaid(s, reader);
    hide ReturnsArePaired, EndedByReturn, IdleFeeds, ReadRecords, SkipEnds, CountedRows, DataRows;
    CountIsEnoughExactly(content, reader);
  }

  lemma PairedIsPaid(s: bytes, reader: Reader)
    requires reader.returnEnds && ReturnsArePaired(s, reader)
    ensures EndedByReturn(s, reader) + (if ReadRecords(s, reader).blank then 0 else 1)
            <= IdleFeeds(s, reader) + (if s != [] && s[|s| - 1] == '\n' then 0 else 1)
  {
    ReturnsPayOff(s, |s|, reader);
    assert s[..|s|] == s;
    LastByte(s, reader);
    hide ReturnsArePaired, EndedByReturn, IdleFeeds, ReadRecords, AwaitsFeed;
  }

  /** The last byte of a paired document awaits nothing, and a line feed in an open record is held. */
  lemma LastByte(s: bytes, reader: Reader)
    requires ReturnsArePaired(s, reader)
    ensures !AwaitsFeed(s, reader)
    ensures s != [] && s[|s| - 1] == '\n' && !ReadRecords(s, reader).blank ==> ReadRecords(s, reader).held > 0
  {
  }

  lemma TimesAtMost(a: nat, b: nat, c: nat)
    requires a <= b
    ensures c * a <= c * b
  {
  }

  /** So an upload the API lets through by its count is not refused for its size by the worker. */
  lemma AcceptedUploadFits(content: bytes, participants: nat, iterations: nat, reader: Reader)
    requires CountedRows(content).Some? && !P.TooLarge(participants, CountedRows(content).value, iterations)
    requires reader.returnEnds ==> ReturnsArePaid(content, reader)
    ensures !P.TooLarge(participants, DataRows(content, reader), iterations)
  {
    if reader.returnEnds {
      CountIsEnoughExactly(content, reader);
    } else {
      CountIsEnough(content, reader);
    }
    var rows, counted := DataRows(content, reader), CountedRows(content).value;
    TimesAtMost(rows, counted, participants);
    TimesAtMost(participants * rows, participants * counted, iterations);
  }

  lemma QuotientFits(most: nat, c: nat)
    requires c > 0 && c * c <= most
    ensures most / c * c <= most < most / c * (c + 1)
  {
    var k := most / c;
    assert k * c + most % c == most && k * (c + 1) == k * c + k;
    CancelFactor(c, k + 1, c);
  }

  lemma CancelFactor(a: nat, b: nat, c: nat)
    requires a * c < b * c
    ensures a < b
  {
  }

  /**
   * Where it does not hold of an upload that is not very long, some key is let through by the count
   * and refused by the rows.
   */
  lemma UnpaidUploadSlips(content: bytes, counted: nat, reader: Reader) returns (participants: nat)
    requires CountedRows(content) == Some(counted) && !ReturnsArePaid(content, reader)
             && counted * counted <= P.MAX_SIMULATION_CELLS
    ensures !P.TooLarge(participants, counted, 1) && P.TooLarge(participants, DataRows(content, reader), 1)
  {
    CountIsEnoughExactly(content, reader);
    if counted == 0 {
      participants := P.MAX_SIMULATION_CELLS + 1;
    } else {
      participants := P.MAX_SIMULATION_CELLS / counted;
      QuotientFits(P.MAX_SIMULATION_CELLS, counted);
    }
    TimesAtMost(counted + 1, DataRows(content, reader), participants);
  }

  lemma ReadSnoc(s: bytes, b: byte, reader: Reader)
    ensures ReadRecords(s + [b], reader) == ReadByte(ReadRecords(s, reader), b, reader)
    ensures LineFeeds(s + [b]) == LineFeeds(s) + if b == '\n' then 1 else 0
  {
    SnocFront(s, b);
  }

  lemma LetterRead(b: byte, k: nat)
    requires b == 'h' || b == '1' || b == '2'
    ensures ReadByte(Records(Start, true, 0, k), b, PANDAS) == Records(Plain, false, 0, k)
  {
  }

  lemma ReturnRead(k: nat)
    ensures ReadByte(Records(Plain, false, 0, k), '\r', PANDAS) == Records(Start, true, 0, k + 1)
  {
  }

  /** The worker's reader finds rows the count misses. */
  lemma ReturnsAreMissed()
    ensures var s: bytes := "h\r1\r2";
            CountedRows(s) == Some(0) && DataRows(s, PANDAS) == 2 && !ReturnsArePaid(s, PANDAS)
  {
    var a: bytes, b: bytes, c: bytes, d: bytes := "h", "h\r", "h\r1", "h\r1\r";
    NoRecords(PANDAS);
    LetterRead('h', 0);
    ReturnRead(0);
    LetterRead('1', 1);
    ReturnRead(1);
    LetterRead('2', 2);
    hide ReadRecords, ReadByte, LineFeeds, SkipEnds, CountedRows, DataRows, ReturnsArePaid;
    assert [] + ['h'] == a && a + ['\r'] == b && b + ['1'] == c && c + ['\r'] == d && d + ['2'] == "h\r1\r2";
    ReadSnoc([], 'h', PANDAS);
    ReadSnoc(a, '\r', PANDAS);
    ReadSnoc(b, '1', PANDAS);
    ReadSnoc(c, '\r', PANDAS);
    ReadSnoc(d, '2', PANDAS);
    CountMisses("h\r1\r2");
  }

  lemma CountMisses(s: bytes)
    requires |s| == 5 && s[0] == 'h' && s[4] == '2' && LineFeeds(s) == 0
    requires ReadRecords(s, PANDAS) == Records(Plain, false, 0, 2)
    ensures CountedRows(s) == Some(0) && DataRows(s, PANDAS) == 2 && !ReturnsArePaid(s, PANDAS)
  {
    hide ReadRecords, LineFeeds, ReturnsArePaid;
    CountIsEnoughExactly(s, PANDAS);
  }

  lemma NoRecords(reader: Reader)
    ensures ReadRecords([], reader) == Records(Start, true, 0, 0) && LineFeeds([]) == 0
  {
  }
}
