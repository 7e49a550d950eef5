/** Writing Intel HEX records, and what the converter makes of a file of them. */
module HexWriter {
  import opened Words
  import opened IntelHex

  /** What a line says. The fields a reader ignores may hold anything: the address of
      a base or start-address record, the data of an end-of-file record. */
  datatype Entry =
    | Empty
    | Bytes(address: word, data: seq<byte>)
    | EndOfFile(start: word, data: seq<byte>)
    | Segment(address: word, base: word)
    | Linear(address: word, base: word)
    | StartAddress(linear: bool, address: word, data: seq<byte>)

  /** A record counts its data in one byte. */
  predicate Writable(e: Entry) {
    e.Bytes? || e.EndOfFile? || e.StartAddress? ==> |e.data| < 0x100
  }

  function Total(bytes: seq<byte>): nat {
    if bytes == [] then 0 else bytes[0] + Total(bytes[1..])
  }

  /** The byte that makes the whole record add up to a multiple of 256. */
  function Checksum(body: seq<byte>): byte { (0x100 - Total(body) % 0x100) % 0x100 }

  function Body(kind: byte, address: word, data: seq<byte>): seq<byte>
    requires |data| < 0x100
  {
    [|data|, address / 0x100, address % 0x100, kind] + data
  }

  /** A record: length, address, type, data, checksum. */
  function Encoded(kind: byte, address: word, data: seq<byte>): seq<byte>
    requires |data| < 0x100
  {
    Body(kind, address, data) + [Checksum(Body(kind, address, data))]
  }

  function LineOf(e: Entry): Line
    requires Writable(e)
  {
    match e
    case Empty => Blank
    case Bytes(address, data) => Record(Encoded(0, address, data))
    case EndOfFile(start, data) => Record(Encoded(1, start, data))
    case Segment(address, base) => Record(Encoded(2, address, [base / 0x100, base % 0x100]))
    case Linear(address, base) => Record(Encoded(4, address, [base / 0x100, base % 0x100]))
    case StartAddress(linear, address, data) => Record(Encoded(if linear then 5 else 3, address, data))
  }

  predicate AllWritable(file: seq<Entry>) { forall i :: 0 <= i < |file| ==> Writable(file[i]) }

  function Lines(file: seq<Entry>): (lines: seq<Line>)
    requires AllWritable(file)
    ensures |lines| == |file|
  {
    seq(|file|, i requires 0 <= i < |file| => LineOf(file[i]))
  }

  // ---------------------------------------------------------------- meaning

  /** The number of lines before the end-of-file record. */
  function Length(file: seq<Entry>): (n: nat)
    ensures n <= |file| && (n < |file| ==> file[n].EndOfFile?)
    ensures forall i :: 0 <= i < n ==> !file[i].EndOfFile?
  {
    if file == [] || file[0].EndOfFile? then 0 else 1 + Length(file[1..])
  }

  /** The base address that line k adds to: sixteen times the last segment or 65536
      times the last linear base before it. */
  function Base(file: seq<Entry>, k: nat): nat
    requires k <= |file|
  {
    if k == 0 then 0 else
    match file[k - 1]
    case Segment(_, base) => 0x10 * base
    case Linear(_, base) => 0x1_0000 * base
    case _ => Base(file, k - 1)
  }

  /** Where the data of line k goes. */
  function Origin(file: seq<Entry>, k: nat): nat
    requires k < |file| && file[k].Bytes?
  {
    Base(file, k) + file[k].address
  }

  predicate Fits(file: seq<Entry>, k: nat)
    requires k < |file|
  {
    file[k].Bytes? ==> Origin(file, k) + |file[k].data| <= 0x1_0000
  }

  /** The byte the first k lines leave at address a, the last writer winning. */
  function Held(file: seq<Entry>, k: nat, a: nat): Option<byte>
    requires k <= |file|
  {
    if k == 0 then None
    else if file[k - 1].Bytes? && Origin(file, k - 1) <= a < Origin(file, k - 1) + |file[k - 1].data| then
      Some(file[k - 1].data[a - Origin(file, k - 1)])
    else Held(file, k - 1, a)
  }

  /** The lowest address the first k lines put data at. */
  function Bottom(file: seq<Entry>, k: nat): Option<nat>
    requires k <= |file|
  {
    if k == 0 then None
    else if file[k - 1].Bytes? && (Bottom(file, k - 1) == None || Bottom(file, k - 1).value > Origin(file, k - 1)) then
      Some(Origin(file, k - 1))
    else Bottom(file, k - 1)
  }

  /** The byte of the image at a: as written; zero below all the data; else $FF. */
  function Expected(file: seq<Entry>, a: nat): byte {
    match Held(file, Length(file), a)
    case Some(b) => b
    case None => if Bottom(file, Length(file)).Some? && a < Bottom(file, Length(file)).value then 0x00 else 0xFF
  }

  // ---------------------------------------------------------------- one record

  lemma {:induction false} TotalOfAppended(bytes: seq<byte>, b: byte)
    ensures Total(bytes + [b]) == Total(bytes) + b
  {
    if bytes == [] {
      assert bytes + [b] == [b];
      assert [b][1..] == [];
    } else {
      assert (bytes + [b])[1..] == bytes[1..] + [b];
      TotalOfAppended(bytes[1..], b);
    }
  }

  lemma {:induction false} SumIsTotal(bytes: seq<byte>)
    ensures Sum(bytes) == Total(bytes)
  {
    if bytes != [] {
      var n := |bytes| - 1;
      SumIsTotal(bytes[..n]);
      TotalOfAppended(bytes[..n], bytes[n]);
      assert bytes[..n] + [bytes[n]] == bytes;
    }
  }

  lemma ChecksumCompletes(total: nat)
    ensures (total + (0x100 - total % 0x100) % 0x100) % 0x100 == 0
  {
  }

  /** A written record is good and says what was written. */
  lemma EncodedIsGood(kind: byte, address: word, data: seq<byte>)
    requires |data| < 0x100
    ensures Check(Encoded(kind, address, data)) == Good(|data|, address, kind, data)
  {
    hide Sum, Total;
    var body, bytes := Body(kind, address, data), Encoded(kind, address, data);
    SumIsTotal(bytes);
    TotalOfAppended(body, Checksum(body));
    ChecksumCompletes(Total(body));
    assert bytes[4..4 + |data|] == data;
    assert Pair(address / 0x100, address % 0x100) == address;
  }

  /** Only written records are good. */
  lemma GoodIsEncoded(bytes: seq<byte>)
    requires Check(bytes).Good?
    ensures var f := Check(bytes);
            |f.data| < 0x100 && bytes == Encoded(f.kind, f.address, f.data)
  {
    hide Sum, Total;
    var f := Check(bytes);
    var body, n := Body(f.kind, f.address, f.data), |bytes| - 1;
    assert bytes[..n] == body by { HeaderOf(bytes[1], bytes[2]); }
    assert bytes == body + [bytes[n]];
    SumIsTotal(bytes);
    TotalOfAppended(body, bytes[n]);
    ChecksumIsUnique(Total(body), bytes[n]);
  }

  lemma HeaderOf(high: byte, low: byte)
    ensures Pair(high, low) / 0x100 == high && Pair(high, low) % 0x100 == low
  {
  }

  lemma ChecksumIsUnique(total: nat, b: byte)
    requires (total + b) % 0x100 == 0
    ensures b == (0x100 - total % 0x100) % 0x100
  {
  }

  /** What reading one written line does. */
  lemma AfterWrittenLine(base: nat, line: nat, e: Entry)
    requires Writable(e)
    ensures AfterLine(base, line, LineOf(e)) ==
      match e
      case Bytes(address, data) =>
        if base + address + |data| <= 0x1_0000 then Reading(base) else Failed(line, OutsideMemory)
      case EndOfFile(start, _) => Ended(start)
      case Segment(_, b) => Reading(0x10 * b)
      case Linear(_, b) => Reading(0x1_0000 * b)
      case _ => Reading(base)
  {
    hide Check, Encoded;
    match e {
      case Empty =>
      case Bytes(address, data) => EncodedIsGood(0, address, data);
      case EndOfFile(start, data) => EncodedIsGood(1, start, data);
      case Segment(address, b) =>
        EncodedIsGood(2, address, [b / 0x100, b % 0x100]);
        assert Pair(b / 0x100, b % 0x100) == b;
      case Linear(address, b) =>
        EncodedIsGood(4, address, [b / 0x100, b % 0x100]);
        assert Pair(b / 0x100, b % 0x100) == b;
      case StartAddress(linear, address, data) => EncodedIsGood(if linear then 5 else 3, address, data);
    }
  }

  // ---------------------------------------------------------------- whole files

  lemma {:induction false} ProgressIsBase(file: seq<Entry>, k: nat)
    requires AllWritable(file) && k <= Length(file) && forall i :: 0 <= i < k ==> Fits(file, i)
    ensures Progressed(Lines(file), k) == Reading(Base(file, k))
  {
    hide AfterLine, LineOf, Length;
    if k > 0 {
      ProgressIsBase(file, k - 1);
      AfterWrittenLine(Base(file, k - 1), k, file[k - 1]);
      assert Fits(file, k - 1);
    }
  }

  lemma DataLine(file: seq<Entry>, k: nat)
    requires AllWritable(file) && k < Length(file) && forall i :: 0 <= i <= k ==> Fits(file, i)
    ensures IsData(Lines(file), k) <==> file[k].Bytes?
    ensures IsData(Lines(file), k) ==>
      var f := Check(Lines(file)[k].bytes);
      Start(Lines(file), k) == Origin(file, k) && f.data == file[k].data && f.count == |file[k].data|
  {
    hide Progressed, Check, Encoded, Length;
    ProgressIsBase(file, k);
    ProgressIsBase(file, k + 1);
    match file[k] {
      case Empty =>
      case Bytes(address, data) => EncodedIsGood(0, address, data);
      case EndOfFile(start, data) =>
      case Segment(address, b) => EncodedIsGood(2, address, [b / 0x100, b % 0x100]);
      case Linear(address, b) => EncodedIsGood(4, address, [b / 0x100, b % 0x100]);
      case StartAddress(linear, address, data) => EncodedIsGood(if linear then 5 else 3, address, data);
    }
  }

  lemma {:induction false} CoverIsHeld(file: seq<Entry>, k: nat, a: nat)
    requires AllWritable(file) && k <= Length(file) && forall i :: 0 <= i < k ==> Fits(file, i)
    ensures Held(file, k, a) == match LastCover(Lines(file), k, a)
                                case Some(j) => Some(ByteAt(Lines(file), j, a))
                                case None => None
  {
    hide Lines, IsData, Start, Check, Length, Fits;
    if k > 0 {
      CoverIsHeld(file, k - 1, a);
      DataLine(file, k - 1);
    }
  }

  lemma {:induction false} LowestIsBottom(file: seq<Entry>, k: nat)
    requires AllWritable(file) && k <= Length(file) && forall i :: 0 <= i < k ==> Fits(file, i)
    ensures Lowest(Lines(file), k) == Bottom(file, k)
  {
    hide Lines, IsData, Start, Check, Length, Fits;
    if k > 0 {
      LowestIsBottom(file, k - 1);
      DataLine(file, k - 1);
    }
  }

  /** Reading stops at the end-of-file record. */
  lemma EndOfReading(file: seq<Entry>)
    requires AllWritable(file) && forall i :: 0 <= i < Length(file) ==> Fits(file, i)
    ensures var n, lines := Length(file), Lines(file);
            && Progressed(lines, |lines|) == (if n < |file| then Ended(file[n].start) else Reading(Base(file, n)))
            && Lowest(lines, |lines|) == Bottom(file, n)
            && forall a :: LastCover(lines, |lines|, a) == LastCover(lines, n, a)
  {
    hide AfterLine, LineOf, Length, Fits, LastCover, Lowest;
    var n, lines := Length(file), Lines(file);
    ProgressIsBase(file, n);
    LowestIsBottom(file, n);
    if n < |file| {
      AfterWrittenLine(Base(file, n), n + 1, file[n]);
      NotCovering(lines, n);
      StaysPut(lines, n + 1, |lines|);
    }
  }

  /** Any file of written records in which every datum fits the memory is accepted. The
      image holds data[i] at base + address + i, later records winning, and the
      end-of-file record's address is returned. If a datum does not fit, the file is
      rejected at the first such line. */
  method ReadWritten(file: seq<Entry>) returns (image: array<byte>, r: Result)
    requires AllWritable(file)
    ensures image.Length == 0x1_0000 && fresh(image)
    ensures var n := Length(file);
            if forall k :: 0 <= k < n ==> Fits(file, k) then
              && r == Image(Bottom(file, n), if n < |file| then Some(file[n].start) else None)
              && forall a :: 0 <= a < 0x1_0000 ==> image[a] == Expected(file, a)
            else exists k :: 0 <= k < n && !Fits(file, k) && (forall i :: 0 <= i < k ==> Fits(file, i))
                        && r == Rejected(k + 1, OutsideMemory)
  {
    hide Lines, Fits, Length, Lowest, LastCover, Progressed, Held, Bottom;
    image, r := ParseIntelHex(Lines(file));
    if forall k :: 0 <= k < Length(file) ==> Fits(file, k) {
      EndOfReading(file);
      forall a | 0 <= a < 0x1_0000 ensures image[a] == Expected(file, a) { CoverIsHeld(file, Length(file), a); }
    } else {
      FirstMisfit(file);
    }
  }

  lemma FirstMisfit(file: seq<Entry>)
    requires AllWritable(file) && exists k :: 0 <= k < Length(file) && !Fits(file, k)
    ensures exists k :: 0 <= k < Length(file) && !Fits(file, k) && (forall i :: 0 <= i < k ==> Fits(file, i))
                  && Progressed(Lines(file), |file|) == Failed(k + 1, OutsideMemory)
  {
    hide Lines, Fits, Length, Progressed;
    var j :| 0 <= j < Length(file) && !Fits(file, j);
    var k := FirstUpTo(file, j);
    MisfitIsRejected(file, k);
  }

  lemma FirstUpTo(file: seq<Entry>, j: nat) returns (k: nat)
    requires j < |file| && !Fits(file, j)
    ensures k <= j && !Fits(file, k) && forall i :: 0 <= i < k ==> Fits(file, i)
  {
    hide Fits;
    k := 0;
    while Fits(file, k)
      invariant k <= j && forall i :: 0 <= i < k ==> Fits(file, i)
      decreases j - k
    {
      k := k + 1;
    }
  }

  lemma MisfitIsRejected(file: seq<Entry>, k: nat)
    requires AllWritable(file) && k < Length(file) && !Fits(file, k) && forall i :: 0 <= i < k ==> Fits(file, i)
    ensures Progressed(Lines(file), |file|) == Failed(k + 1, OutsideMemory)
  {
    hide AfterLine, LineOf, Length, Base, Fits, Lines, Progressed;
    ProgressIsBase(file, k);
    OneLine(Lines(file), k, Base(file, k));
    MisfitFails(file, k);
    StaysPut(Lines(file), k + 1, |file|);
  }

  lemma MisfitFails(file: seq<Entry>, k: nat)
    requires AllWritable(file) && k < |file| && !Fits(file, k)
    ensures AfterLine(Base(file, k), k + 1, Lines(file)[k]) == Failed(k + 1, OutsideMemory)
  {
    hide AfterLine, LineOf, Base;
    AfterWrittenLine(Base(file, k), k + 1, file[k]);
  }

  lemma OneLine(lines: seq<Line>, k: nat, base: nat)
    requires k < |lines| && Progressed(lines, k) == Reading(base)
    ensures Progressed(lines, k + 1) == AfterLine(base, k + 1, lines[k])
  {
    hide AfterLine;
  }

  /** What makes a line stop the reading with an error, whatever came before it: it is
      not blank, and it is not a record of types 0 to 5 that could have been written,
      with two data bytes if it sets a base, and inside the memory if it is data. */
  lemma FailsExactly(base: nat, line: nat, text: Line)
    ensures AfterLine(base, line, text).Failed? <==>
      text != Blank && !exists kind: byte, address: word, data: seq<byte> ::
        && |data| < 0x100 && text == Record(Encoded(kind, address, data)) && kind <= 5
        && (kind == 2 || kind == 4 ==> |data| == 2)
        && (kind == 0 ==> base + address + |data| <= 0x1_0000)
  {
    hide Encoded, Check;
    if text.Record? && Check(text.bytes).Good? {
      var f := Check(text.bytes);
      GoodIsEncoded(text.bytes);
    }
    forall kind: byte, address: word, data: seq<byte> | |data| < 0x100
      ensures Check(Encoded(kind, address, data)) == Good(|data|, address, kind, data)
    {
      EncodedIsGood(kind, address, data);
    }
  }
}
