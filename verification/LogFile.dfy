/** The log file, byte by byte: a header with the clock and the record count, then records
    of fixed size. It refines a sequence of records. */
module LogFile {
  import opened Types

  type byte = x: nat | x < 256
  type word = x: nat | x < TWO32

  type Bytes = seq<byte>

  const TWO31: nat := 0x8000_0000

  const ID_SIZE: nat := 64
  const CLOCK_WORDS: nat := 2 * MAX_NODES                           // pairs of node and time
  const COUNT_AT: nat := 4 * CLOCK_WORDS                            // the count follows the clock in the header
  const HEADER_SIZE: nat := COUNT_AT + 3 * 4 + 64                   // then two ports and a host name
  const RECORD_SIZE: nat := 4 * 4 + ID_SIZE + 4 * CLOCK_WORDS

  /** One record; `code` is the number that stands for its type. */
  datatype Rec = Rec(code: word, tid: word, a: word, b: word, id: Bytes, clock: seq<word>)

  predicate ValidRec(r: Rec) {
    |r.id| == ID_SIZE && |r.clock| == CLOCK_WORDS
  }

  const ZERO_REC: Rec := Rec(0, 0, 0, 0, seq(ID_SIZE, _ => 0), seq(CLOCK_WORDS, _ => 0))

  /** The previous index in 32-bit arithmetic. */
  function Before(count: word): word {
    if count == 0 then TWO32 - 1 else count - 1
  }

  /** An unsigned number stored in a signed integer of the same width. */
  function Signed(x: word): int {
    if x < TWO31 then x else x - TWO32
  }

  // Numbers and records as bytes, least significant byte first

  function Word(x: word): (b: Bytes)
    ensures |b| == 4
  {
    var q1 := x / 256;
    var q2 := q1 / 256;
    [x % 256, q1 % 256, q2 % 256, q2 / 256]
  }

  function Value(w: Bytes): word
    requires |w| == 4
  {
    var b0: nat, b1: nat, b2: nat, b3: nat := w[0], w[1], w[2], w[3];
    b0 + 256 * (b1 + 256 * (b2 + 256 * b3))
  }

  function ReadWord(b: Bytes, at: nat): word
    requires at + 4 <= |b|
  {
    Value(b[at..at + 4])
  }

  lemma WordRoundTrip(x: word)
    ensures Value(Word(x)) == x
  {
  }

  function Words(ws: seq<word>): (b: Bytes)
    ensures |b| == 4 * |ws|
  {
    if ws == [] then [] else Word(ws[0]) + Words(ws[1..])
  }

  lemma {:induction false} WordsAt(ws: seq<word>, i: nat)
    requires i < |ws|
    ensures Words(ws)[4 * i..4 * i + 4] == Word(ws[i])
    ensures ReadWord(Words(ws), 4 * i) == ws[i]
  {
    WordRoundTrip(ws[i]);
    if i > 0 {
      WordsAt(ws[1..], i - 1);
      assert Words(ws)[4 * i..4 * i + 4] == Words(ws[1..])[4 * (i - 1)..4 * (i - 1) + 4];
    }
  }

  function ReadWords(b: Bytes, at: nat, n: nat): (ws: seq<word>)
    requires at + 4 * n <= |b|
    ensures |ws| == n
    ensures forall i :: 0 <= i < n ==> ws[i] == ReadWord(b, at + 4 * i)
  {
    seq(n, i requires 0 <= i < n => ReadWord(b, at + 4 * i))
  }

  function Encode(r: Rec): (b: Bytes)
    requires ValidRec(r)
    ensures |b| == RECORD_SIZE
  {
    Words([r.code, r.tid, r.a, r.b]) + r.id + Words(r.clock)
  }

  function Decode(b: Bytes): (r: Rec)
    requires |b| == RECORD_SIZE
    ensures ValidRec(r)
  {
    Rec(ReadWord(b, 0), ReadWord(b, 4), ReadWord(b, 8), ReadWord(b, 12),
        b[16..16 + ID_SIZE], ReadWords(b, 80, CLOCK_WORDS))
  }

  lemma RecordRoundTrip(r: Rec)
    requires ValidRec(r)
    ensures Decode(Encode(r)) == r
  {
    var b, head := Encode(r), Words([r.code, r.tid, r.a, r.b]);
    forall i | 0 <= i < 4 ensures ReadWord(b, 4 * i) == [r.code, r.tid, r.a, r.b][i] {
      WordsAt([r.code, r.tid, r.a, r.b], i);
      assert b[4 * i..4 * i + 4] == head[4 * i..4 * i + 4];
    }
    assert ReadWord(b, 4 * 0) == r.code && ReadWord(b, 4 * 1) == r.tid;
    assert ReadWord(b, 4 * 2) == r.a && ReadWord(b, 4 * 3) == r.b;
    assert b[16..80] == r.id;
    forall i | 0 <= i < CLOCK_WORDS ensures ReadWord(b, 80 + 4 * i) == r.clock[i] {
      WordsAt(r.clock, i);
      assert b[80 + 4 * i..80 + 4 * i + 4] == Words(r.clock)[4 * i..4 * i + 4];
    }
    assert ReadWords(b, 80, CLOCK_WORDS) == r.clock;
  }

  /** Reads 160 bytes into a buffer, or as many as the file still has. */
  function ReadOver(f: Bytes, at: nat, buffer: Bytes): (b: Bytes)
    requires |buffer| == RECORD_SIZE
    ensures |b| == RECORD_SIZE
  {
    if |f| <= at then buffer
    else if at + RECORD_SIZE <= |f| then f[at..at + RECORD_SIZE]
    else f[at..] + buffer[|f| - at..]
  }

  /** The bytes of a word, least significant first. */
  lemma WordBytes(x: word)
    ensures var b := Word(x);
            && b[0] == x % 0x100 && b[1] == x / 0x100 % 0x100
            && b[2] == x / 0x1_0000 % 0x100 && b[3] == x / 0x100_0000
  {
    WordRoundTrip(x);
  }

  /** Where the fields of a record are: type, transaction, old A, old B, old ID, clock. */
  lemma RecordLayout(r: Rec)
    requires ValidRec(r)
    ensures var b := Encode(r);
            && ReadWord(b, 0) == r.code && ReadWord(b, 4) == r.tid && ReadWord(b, 8) == r.a && ReadWord(b, 12) == r.b
            && b[16..80] == r.id && forall i :: 0 <= i < CLOCK_WORDS ==> ReadWord(b, 80 + 4 * i) == r.clock[i]
  {
    RecordRoundTrip(r);
    forall i | 0 <= i < CLOCK_WORDS ensures ReadWord(Encode(r), 80 + 4 * i) == r.clock[i] {
      assert ReadWords(Encode(r), 80, CLOCK_WORDS)[i] == r.clock[i];
    }
  }

  // Writing into a file

  function WriteAt(f: Bytes, at: nat, data: Bytes): (g: Bytes)
    requires at <= |f|
    ensures |g| == if at + |data| <= |f| then |f| else at + |data|
  {
    f[..at] + data + if at + |data| <= |f| then f[at + |data|..] else []
  }

  lemma WriteElsewhere(f: Bytes, at: nat, data: Bytes, lo: nat, hi: nat)
    requires at <= |f| && lo <= hi <= |f| && (hi <= at || at + |data| <= lo)
    ensures WriteAt(f, at, data)[lo..hi] == f[lo..hi]
  {
  }

  lemma WriteThere(f: Bytes, at: nat, data: Bytes)
    requires at <= |f|
    ensures WriteAt(f, at, data)[at..at + |data|] == data
  {
  }

  // The file as a sequence of records

  function Count(f: Bytes): word
    requires COUNT_AT + 4 <= |f|
  {
    ReadWord(f, COUNT_AT)
  }

  function Offset(i: nat): nat {
    HEADER_SIZE + i * RECORD_SIZE
  }

  predicate WellFormed(f: Bytes) {
    RECORD_SIZE <= |f| && Offset(Count(f)) <= |f|
  }

  function RecordAt(f: Bytes, i: nat): Rec
    requires Offset(i + 1) <= |f|
  {
    Decode(f[Offset(i)..Offset(i) + RECORD_SIZE])
  }

  function Entries(f: Bytes): (rs: seq<Rec>)
    requires WellFormed(f)
    ensures |rs| == Count(f)
    ensures forall i :: 0 <= i < Count(f) ==> rs[i] == RecordAt(f, i)
  {
    seq(Count(f), i requires 0 <= i < Count(f) => RecordAt(f, i))
  }

  function HeaderClock(f: Bytes): seq<word>
    requires WellFormed(f)
  {
    ReadWords(f, 0, CLOCK_WORDS)
  }

  lemma SliceOfSlice(f: Bytes, lo: nat, hi: nat, from: nat, to: nat)
    requires lo <= from <= to <= hi <= |f|
    ensures f[lo..hi][from - lo..to - lo] == f[from..to]
  {
    var a, b := f[lo..hi][from - lo..to - lo], f[from..to];
    forall k | 0 <= k < to - from ensures a[k] == b[k] {
      assert a[k] == f[lo..hi][from - lo + k];
    }
  }

  lemma SameInside(f: Bytes, g: Bytes, end: nat, from: nat, to: nat)
    requires end <= |f| && end <= |g| && g[0..end] == f[0..end] && from <= to <= end
    ensures g[from..to] == f[from..to]
  {
    SliceOfSlice(f, 0, end, from, to);
    SliceOfSlice(g, 0, end, from, to);
  }

  /** Only the count and the bytes up to the end of the last counted record matter. */
  lemma SameEntries(f: Bytes, g: Bytes)
    requires WellFormed(f) && Offset(Count(f)) <= |g| && RECORD_SIZE <= |g|
    requires g[COUNT_AT..COUNT_AT + 4] == f[COUNT_AT..COUNT_AT + 4]
    requires g[HEADER_SIZE..Offset(Count(f))] == f[HEADER_SIZE..Offset(Count(f))]
    ensures WellFormed(g) && Entries(g) == Entries(f)
  {
    assert Count(g) == Count(f);
    forall i | 0 <= i < Count(f) ensures RecordAt(g, i) == RecordAt(f, i) {
      var end := Offset(Count(f));
      assert Offset(i) + RECORD_SIZE <= end;
      SliceOfSlice(f, HEADER_SIZE, end, Offset(i), Offset(i) + RECORD_SIZE);
      SliceOfSlice(g, HEADER_SIZE, end, Offset(i), Offset(i) + RECORD_SIZE);
    }
  }

  /** A new file is 160 zero bytes: an empty log. Any shorter file is overwritten. */
  function Opened(f: Bytes): Bytes {
    if |f| < RECORD_SIZE then seq(RECORD_SIZE, _ => 0) else f
  }

  lemma OpenedIsLog(f: Bytes)
    ensures |f| < RECORD_SIZE ==> WellFormed(Opened(f)) && Entries(Opened(f)) == []
    ensures WellFormed(f) ==> Opened(f) == f
  {
  }

  // The three writes of an append

  function RecordWritten(f: Bytes, r: Rec): Bytes
    requires WellFormed(f) && ValidRec(r)
  {
    WriteAt(f, Offset(Count(f)), Encode(r))
  }

  function CountBumped(f: Bytes): Bytes
    requires COUNT_AT + 4 <= |f|
  {
    WriteAt(f, COUNT_AT, Word((Count(f) + 1) % TWO32))
  }

  function ClockWritten(f: Bytes, clock: seq<word>): Bytes
    requires RECORD_SIZE <= |f|
  {
    WriteAt(f, 0, Words(clock))
  }

  /** A crash after any number of bytes of the record, all of them included, and before the
      count is written leaves exactly the old sequence. */
  lemma TornRecord(f: Bytes, r: Rec, n: nat)
    requires WellFormed(f) && ValidRec(r) && n <= RECORD_SIZE
    ensures var g := WriteAt(f, Offset(Count(f)), Encode(r)[..n]);
            WellFormed(g) && Entries(g) == Entries(f) && HeaderClock(g) == HeaderClock(f)
  {
    var at, data := Offset(Count(f)), Encode(r)[..n];
    var g := WriteAt(f, at, data);
    WriteElsewhere(f, at, data, 0, at);
    SameInside(f, g, at, COUNT_AT, COUNT_AT + 4);
    SameInside(f, g, at, HEADER_SIZE, at);
    SameEntries(f, g);
    forall i | 0 <= i < CLOCK_WORDS ensures ReadWord(g, 4 * i) == ReadWord(f, 4 * i) {
      SameInside(f, g, at, 4 * i, 4 * i + 4);
    }
    assert HeaderClock(g) == HeaderClock(f);
  }

  lemma CountWritten(f: Bytes, n: word)
    requires RECORD_SIZE <= |f|
    ensures Count(WriteAt(f, COUNT_AT, Word(n))) == n
  {
    WriteThere(f, COUNT_AT, Word(n));
    WordRoundTrip(n);
  }

  /** Bumping the count leaves every record where it is. */
  lemma BumpKeepsRecords(f: Bytes, i: nat)
    requires RECORD_SIZE <= |f| && Offset(i + 1) <= |f|
    ensures RecordAt(CountBumped(f), i) == RecordAt(f, i)
  {
    WriteElsewhere(f, COUNT_AT, Word((Count(f) + 1) % TWO32), Offset(i), Offset(i) + RECORD_SIZE);
  }

  lemma BumpCountsOne(f: Bytes)
    requires RECORD_SIZE <= |f| && Count(f) + 1 < TWO32 && Offset(Count(f) + 1) <= |f|
    ensures WellFormed(CountBumped(f)) && Count(CountBumped(f)) == Count(f) + 1
  {
    var n: word := (Count(f) + 1) % TWO32;
    assert n == Count(f) + 1;
    CountWritten(f, n);
  }

  lemma RecordInPlace(f: Bytes, r: Rec)
    requires WellFormed(f) && ValidRec(r)
    ensures var g := RecordWritten(f, r);
            && WellFormed(g) && Count(g) == Count(f) && Offset(Count(f) + 1) <= |g|
            && Entries(g) == Entries(f) && RecordAt(g, Count(f)) == r
  {
    RecordUncounted(f, r);
    WrittenThere(f, Offset(Count(f)), r);
  }

  lemma RecordUncounted(f: Bytes, r: Rec)
    requires WellFormed(f) && ValidRec(r)
    ensures var g := RecordWritten(f, r); WellFormed(g) && Count(g) == Count(f) && Entries(g) == Entries(f)
  {
    TornRecord(f, r, RECORD_SIZE);
    assert Encode(r)[..RECORD_SIZE] == Encode(r);
    assert |Entries(RecordWritten(f, r))| == |Entries(f)|;
  }

  lemma WrittenThere(f: Bytes, at: nat, r: Rec)
    requires at <= |f| && ValidRec(r)
    ensures var g := WriteAt(f, at, Encode(r)); at + RECORD_SIZE <= |g| && Decode(g[at..at + RECORD_SIZE]) == r
  {
    WriteThere(f, at, Encode(r));
    RecordRoundTrip(r);
  }

  lemma CountedAt(f: Bytes, rs: seq<Rec>, r: Rec, i: nat)
    requires WellFormed(f) && Entries(f) == rs && Offset(|rs| + 1) <= |f| && RecordAt(f, |rs|) == r && i <= |rs|
    ensures Offset(i + 1) <= |CountBumped(f)| && RecordAt(CountBumped(f), i) == (rs + [r])[i]
  {
    BumpKeepsRecords(f, i);
  }

  /** Counting the record makes it the last one and disturbs no other. */
  lemma CountedRecord(f: Bytes, r: Rec)
    requires WellFormed(f) && ValidRec(r) && Count(f) + 1 < TWO32
    ensures var g := CountBumped(RecordWritten(f, r));
            WellFormed(g) && Entries(g) == Entries(f) + [r]
  {
    RecordInPlace(f, r);
    CountedLast(RecordWritten(f, r), Entries(f), r);
  }

  lemma CountedLast(f: Bytes, rs: seq<Rec>, r: Rec)
    requires WellFormed(f) && Entries(f) == rs && Offset(|rs| + 1) <= |f| && RecordAt(f, |rs|) == r
    requires |rs| + 1 < TWO32
    ensures WellFormed(CountBumped(f)) && Entries(CountBumped(f)) == rs + [r]
  {
    BumpCountsOne(f);
    forall i: nat | i < |rs| + 1 ensures Entries(CountBumped(f))[i] == (rs + [r])[i] {
      CountedAt(f, rs, r, i);
    }
  }

  /** The clock lies in front of the count and the records and changes neither. */
  lemma ClockApart(f: Bytes, clock: seq<word>)
    requires WellFormed(f) && |clock| == CLOCK_WORDS
    ensures var g := ClockWritten(f, clock);
            WellFormed(g) && Entries(g) == Entries(f) && HeaderClock(g) == clock
  {
    var g := ClockWritten(f, clock);
    WriteElsewhere(f, 0, Words(clock), COUNT_AT, COUNT_AT + 4);
    WriteElsewhere(f, 0, Words(clock), HEADER_SIZE, Offset(Count(f)));
    SameEntries(f, g);
    WriteThere(f, 0, Words(clock));
    forall i | 0 <= i < CLOCK_WORDS ensures ReadWord(g, 4 * i) == clock[i] {
      WordsAt(clock, i);
      assert g[4 * i..4 * i + 4] == g[0..0 + |Words(clock)|][4 * i..4 * i + 4];
    }
    assert HeaderClock(g) == clock;
  }

  function Appended(f: Bytes, r: Rec): Bytes
    requires WellFormed(f) && ValidRec(r)
  {
    ClockWritten(CountBumped(RecordWritten(f, r)), r.clock)
  }

  /** An append refines appending to a sequence exactly when the 32-bit count does not wrap;
      if it wraps, the whole log is lost. */
  lemma AppendExactly(f: Bytes, r: Rec)
    requires WellFormed(f) && ValidRec(r)
    ensures WellFormed(Appended(f, r)) && HeaderClock(Appended(f, r)) == r.clock
    ensures Entries(Appended(f, r)) == Entries(f) + [r] <==> Count(f) + 1 < TWO32
    ensures Count(f) + 1 == TWO32 ==> Entries(Appended(f, r)) == []
  {
    var f1 := RecordWritten(f, r);
    var f2 := CountBumped(f1);
    TornRecord(f, r, RECORD_SIZE);
    assert Encode(r)[..RECORD_SIZE] == Encode(r);
    CountWritten(f1, (Count(f) + 1) % TWO32);
    if Count(f) + 1 < TWO32 {
      CountedRecord(f, r);
    }
    ClockApart(f2, r.clock);
  }

  /** The open log file; the header is mapped, so its fields are bytes of the same file. */
  class LogStore {
    var file: Bytes

    ghost predicate Valid()
      reads this
    {
      WellFormed(file)
    }

    constructor (found: Bytes)
      requires |found| < RECORD_SIZE || WellFormed(found)
      ensures Valid()
      ensures Entries(file) == if |found| < RECORD_SIZE then [] else Entries(found)
    {
      OpenedIsLog(found);
      file := Opened(found);
    }

    method Append(r: Rec)
      requires Valid() && ValidRec(r)
      modifies this
      ensures Valid() && file == Appended(old(file), r)
      ensures Count(old(file)) + 1 < TWO32 ==> Entries(file) == old(Entries(file)) + [r]
    {
      AppendExactly(file, r);
      var offset := Offset(Count(file));
      TornRecord(file, r, RECORD_SIZE);
      assert Encode(r)[..RECORD_SIZE] == Encode(r);
      file := WriteAt(file, offset, Encode(r));
      file := WriteAt(file, COUNT_AT, Word((Count(file) + 1) % TWO32));
      file := WriteAt(file, 0, Words(r.clock));
    }

    /** Reads a record into a buffer; at the end of the file the buffer keeps what it held. */
    method ReadEntry(idx: word, out: Rec) returns (r: Rec)
      requires Valid() && ValidRec(out)
      ensures idx < Count(file) ==> r == Entries(file)[idx]
      ensures Offset(idx + 1) <= |file| ==> r == RecordAt(file, idx)
      ensures |file| <= Offset(idx) ==> r == out
    {
      RecordRoundTrip(out);
      r := Decode(ReadOver(file, Offset(idx), Encode(out)));
    }

    method WriteClock(clock: seq<word>)
      requires Valid() && |clock| == CLOCK_WORDS
      modifies this
      ensures Valid() && Entries(file) == old(Entries(file)) && HeaderClock(file) == clock
    {
      ClockApart(file, clock);
      file := WriteAt(file, 0, Words(clock));
    }

    method ReadClock() returns (clock: seq<word>)
      requires Valid()
      ensures clock == HeaderClock(file)
    {
      clock := ReadWords(file, 0, CLOCK_WORDS);
    }

    /** Whether a transaction id has never been used. */
    method FreeId(tid: word) returns (free: bool)
      requires Valid()
      ensures free <==> forall r :: r in Entries(file) ==> r.tid != tid
    {
      var i := 0;
      while i < Count(file)
        invariant i <= Count(file)
        invariant forall j :: 0 <= j < i ==> Entries(file)[j].tid != tid
      {
        var entry := ReadEntry(i, ZERO_REC);
        if entry.tid == tid {
          assert entry in Entries(file);
          return false;
        }
        i := i + 1;
      }
      return true;
    }

    /** The most recent record. An empty log has none: its index wraps around, and unless
        the file is long enough to have a record there the buffer stays as it was. */
    method LastEntry(out: Rec) returns (r: Rec)
      requires Valid() && ValidRec(out)
      ensures Count(file) > 0 ==> r == Entries(file)[|Entries(file)| - 1]
      ensures Count(file) == 0 && |file| <= Offset(TWO32 - 1) ==> r == out
      ensures Count(file) == 0 && Offset(TWO32) <= |file| ==> r == RecordAt(file, TWO32 - 1)
    {
      r := ReadEntry(Before(Count(file)), out);
    }

    /** The most recent record of a transaction. The index is signed, so nothing is found
        in a log of more than 2^31 records. */
    method LastTx(tid: word) returns (found: Option<Rec>)
      requires Valid()
      ensures found.None? <==> |Entries(file)| > TWO31 || forall r :: r in Entries(file) ==> r.tid != tid
      ensures found.Some? ==>
                exists i :: && 0 <= i < |Entries(file)| && Entries(file)[i] == found.value && found.value.tid == tid
                            && forall j :: i < j < |Entries(file)| ==> Entries(file)[j].tid != tid
    {
      var i := Signed(Before(Count(file)));
      while i >= 0
        invariant i < |Entries(file)|
        invariant if |Entries(file)| > TWO31 then i < 0 else -1 <= i
        invariant |Entries(file)| <= TWO31 ==> forall j :: i < j < |Entries(file)| ==> Entries(file)[j].tid != tid
      {
        var entry := ReadEntry(i, ZERO_REC);
        if entry.tid == tid {
          assert entry in Entries(file);
          return Some(entry);
        }
        i := i - 1;
      }
      return None;
    }
  }
}
