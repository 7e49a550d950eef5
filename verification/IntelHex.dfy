/** Building a 64K image from Intel HEX records (Intel Hexadecimal Object File
    Format Specification, Revision A, 1988). */
module IntelHex {
  import opened Words

  const MEM_SIZE: nat := 0x1_0000

  datatype Option<T> = None | Some(value: T)

  /** A line of the file: blank, not starting with a colon, a colon followed by
      something other than hexadecimal bytes, or the bytes of a record. */
  datatype Line = Blank | NoColon | NotHex | Record(bytes: seq<byte>)

  datatype Error =
    | MissingColon | InvalidHex | TooShort | CountMismatch | BadChecksum | OutsideMemory
    | BadSegmentLength | BadLinearLength | UnsupportedType

  datatype Fields = Bad(error: Error) | Good(count: nat, address: word, kind: byte, data: seq<byte>)

  function Sum(bytes: seq<byte>): nat {
    if bytes == [] then 0 else Sum(bytes[..|bytes| - 1]) + bytes[|bytes| - 1]
  }

  /** The checks every record passes before its type is looked at. */
  function Check(bytes: seq<byte>): (f: Fields)
    ensures f.Good? ==> |f.data| == f.count
  {
    if |bytes| < 5 then Bad(TooShort) else
    var count: int := bytes[0];
    if |bytes| != 5 + count then Bad(CountMismatch)
    else if Sum(bytes) % 0x100 != 0 then Bad(BadChecksum)
    else Good(count, Pair(bytes[1], bytes[2]), bytes[3], bytes[4..4 + count])
  }

  /** How far a reader has come: still reading, with the base address to add to data
      records; past an end-of-file record; or stopped by an error. */
  datatype Progress = Reading(base: nat) | Ended(start: word) | Failed(line: nat, error: Error)

  function AfterRecord(base: nat, line: nat, f: Fields): Progress
    requires f.Good? ==> |f.data| == f.count
  {
    match f
    case Bad(e) => Failed(line, e)
    case Good(count, address, kind, data) =>
      match kind
      case 0 => if base + address + count > MEM_SIZE then Failed(line, OutsideMemory) else Reading(base)
      case 1 => Ended(address)
      case 2 => if count != 2 then Failed(line, BadSegmentLength) else Reading(Pair(data[0], data[1]) * 0x10)
      case 4 => if count != 2 then Failed(line, BadLinearLength) else Reading(Pair(data[0], data[1]) * 0x1_0000)
      case 3 | 5 => Reading(base)
      case _ => Failed(line, UnsupportedType)
  }

  function AfterLine(base: nat, line: nat, text: Line): Progress {
    match text
    case Blank => Reading(base)
    case NoColon => Failed(line, MissingColon)
    case NotHex => Failed(line, InvalidHex)
    case Record(bytes) => AfterRecord(base, line, Check(bytes))
  }

  /** After the first k lines. Nothing is read past an end of file or an error. */
  function Progressed(lines: seq<Line>, k: nat): Progress
    requires k <= |lines|
  {
    if k == 0 then Reading(0) else
    match Progressed(lines, k - 1)
    case Reading(base) => AfterLine(base, k, lines[k - 1])
    case other => other
  }

  predicate IsDataLine(text: Line) { text.Record? && Check(text.bytes).Good? && Check(text.bytes).kind == 0 }

  /** Line k is a data record that is read; it is put at this address. */
  predicate IsData(lines: seq<Line>, k: nat)
    requires k < |lines|
  {
    Progressed(lines, k).Reading? && Progressed(lines, k + 1).Reading? && IsDataLine(lines[k])
  }

  function Start(lines: seq<Line>, k: nat): nat
    requires k < |lines| && IsData(lines, k)
  {
    Progressed(lines, k).base + Check(lines[k].bytes).address
  }

  predicate Covers(lines: seq<Line>, k: nat, a: nat)
    requires k < |lines|
  {
    IsData(lines, k) && Start(lines, k) <= a < Start(lines, k) + Check(lines[k].bytes).count
  }

  function ByteAt(lines: seq<Line>, k: nat, a: nat): byte
    requires k < |lines| && Covers(lines, k, a)
  {
    Check(lines[k].bytes).data[a - Start(lines, k)]
  }

  /** The last of the first k lines that covers a, if any. */
  function LastCover(lines: seq<Line>, k: nat, a: nat): (r: Option<nat>)
    requires k <= |lines|
    ensures r.None? ==> forall j :: 0 <= j < k ==> !Covers(lines, j, a)
    ensures r.Some? ==> r.value < k && Covers(lines, r.value, a) && forall j :: r.value < j < k ==> !Covers(lines, j, a)
  {
    if k == 0 then None else if Covers(lines, k - 1, a) then Some(k - 1) else LastCover(lines, k - 1, a)
  }

  /** The lowest address a data record, even an empty one, is put at. */
  function Lowest(lines: seq<Line>, k: nat): (r: Option<nat>)
    requires k <= |lines|
    ensures r.None? ==> forall j :: 0 <= j < k ==> !IsData(lines, j)
    ensures r.Some? ==> forall j :: 0 <= j < k && IsData(lines, j) ==> r.value <= Start(lines, j)
    ensures r.Some? ==> exists j :: 0 <= j < k && IsData(lines, j) && r.value == Start(lines, j)
  {
    if k == 0 then None else
    var before := Lowest(lines, k - 1);
    if IsData(lines, k - 1) && (before.None? || Start(lines, k - 1) < before.value) then Some(Start(lines, k - 1))
    else before
  }

  /** The image: the last covering record's byte; else zero below the lowest data
      record; else 0xFF. */
  function ImageByte(lines: seq<Line>, a: nat): byte {
    match LastCover(lines, |lines|, a)
    case Some(k) => ByteAt(lines, k, a)
    case None =>
      match Lowest(lines, |lines|)
      case Some(low) => if a < low then 0x00 else 0xFF
      case None => 0xFF
  }

  lemma NothingBelowLowest(lines: seq<Line>, k: nat, a: nat)
    requires k <= |lines| && Lowest(lines, k).Some? && a < Lowest(lines, k).value
    ensures LastCover(lines, k, a).None?
  {
  }

  datatype Result = Rejected(line: nat, error: Error) | Image(low: Option<nat>, start: Option<word>)

  method ParseIntelHex(lines: seq<Line>) returns (image: array<byte>, r: Result)
    ensures image.Length == MEM_SIZE && fresh(image)
    ensures match Progressed(lines, |lines|)
            case Failed(line, error) => r == Rejected(line, error)
            case Ended(start) => r == Image(Lowest(lines, |lines|), Some(start))
            case Reading(_) => r == Image(Lowest(lines, |lines|), None)
    ensures r.Image? ==> forall a :: 0 <= a < MEM_SIZE ==> image[a] == ImageByte(lines, a)
  {
    hide Lowest, LastCover, AfterLine, Covers, IsData, Progressed;
    image := new byte[MEM_SIZE](_ => 0xFF);
    var p, low := ReadLines(image, lines);
    if p.Failed? { return image, Rejected(p.line, p.error); }
    r := Image(low, if p.Ended? then Some(p.start) else None);
    if low.Some? {
      LowestFits(lines, |lines|);
      for i := 0 to low.value
        invariant forall a :: 0 <= a < MEM_SIZE ==> image[a] == if a < i then 0x00 else Written(lines, |lines|, a)
      {
        image[i] := 0x00;
      }
    }
    forall a | 0 <= a < MEM_SIZE ensures image[a] == ImageByte(lines, a) {
      if low.Some? && a < low.value { NothingBelowLowest(lines, |lines|, a); }
    }
  }

  lemma {:induction false} LowestFits(lines: seq<Line>, k: nat)
    requires k <= |lines|
    ensures Lowest(lines, k).Some? ==> Lowest(lines, k).value <= MEM_SIZE
  {
    if k > 0 { LowestFits(lines, k - 1); }
  }

  method ReadLines(image: array<byte>, lines: seq<Line>) returns (p: Progress, low: Option<nat>)
    requires image.Length == MEM_SIZE && forall a :: 0 <= a < MEM_SIZE ==> image[a] == 0xFF
    modifies image
    ensures p == Progressed(lines, |lines|) && low == Lowest(lines, |lines|)
    ensures forall a :: 0 <= a < MEM_SIZE ==> image[a] == Written(lines, |lines|, a)
  {
    hide AfterLine, Check, Covers, IsData;
    low := None;
    p := Reading(0);
    for n := 0 to |lines|
      invariant p == Progressed(lines, n) && p.Reading? && low == Lowest(lines, n)
      invariant forall a :: 0 <= a < MEM_SIZE ==> image[a] == Written(lines, n, a)
    {
      p, low := ReadLine(image, lines, n, p.base, low);
      if !p.Reading? {
        StaysPut(lines, n + 1, |lines|);
        break;
      }
    }
  }

  method ReadLine(image: array<byte>, lines: seq<Line>, n: nat, base: nat, lowest: Option<nat>)
    returns (p: Progress, low: Option<nat>)
    requires image.Length == MEM_SIZE && n < |lines|
    requires Progressed(lines, n) == Reading(base) && lowest == Lowest(lines, n)
    requires forall a :: 0 <= a < MEM_SIZE ==> image[a] == Written(lines, n, a)
    modifies image
    ensures p == Progressed(lines, n + 1) && low == Lowest(lines, n + 1)
    ensures forall a :: 0 <= a < MEM_SIZE ==> image[a] == Written(lines, n + 1, a)
  {
    hide AfterLine, Check;
    low := lowest;
    p := Judge(base, n + 1, lines[n]);
    if !p.Reading? {
      NotCovering(lines, n);
    } else if lines[n].Record? {
      var record := lines[n].bytes;
      RecordFields(base, n + 1, record);
      if record[3] == 0x00 {
        DataFits(base, n + 1, record);
        var address: int, byteCount: int := record[1], record[0];
        var absolute := base + address * 0x100 + record[2];
        Store(image, absolute, record[4..4 + byteCount]);
        if low.None? || absolute < low.value { low := Some(absolute); }
      }
    }
  }

  /** The checks on one line, in the order they are made, and the base it leaves. */
  method Judge(base: nat, line: nat, text: Line) returns (p: Progress)
    ensures p == AfterLine(base, line, text)
  {
    hide Sum;
    match text {
      case Blank => return Reading(base);
      case NoColon => return Failed(line, MissingColon);
      case NotHex => return Failed(line, InvalidHex);
      case Record(record) =>
        if |record| < 5 { return Failed(line, TooShort); }
        var byteCount: int, high: int := record[0], record[1];
        if |record| != 5 + byteCount { return Failed(line, CountMismatch); }
        if Sum(record) % 0x100 != 0 { return Failed(line, BadChecksum); }
        match record[3] {
          case 0x00 =>
            if base + high * 0x100 + record[2] + byteCount > MEM_SIZE { return Failed(line, OutsideMemory); }
            return Reading(base);
          case 0x01 => return Ended(high * 0x100 + record[2]);
          case 0x02 =>
            if byteCount != 2 { return Failed(line, BadSegmentLength); }
            var upper: int := record[4];
            upper := upper * 0x100 + record[5];
            return Reading(upper * 0x10);
          case 0x04 =>
            if byteCount != 2 { return Failed(line, BadLinearLength); }
            var upper: int := record[4];
            upper := upper * 0x100 + record[5];
            return Reading(upper * 0x1_0000);
          case 0x03 => return Reading(base);
          case 0x05 => return Reading(base);
          case _ => return Failed(line, UnsupportedType);
        }
    }
  }

  lemma RecordFields(base: nat, line: nat, record: seq<byte>)
    requires AfterLine(base, line, Record(record)).Reading?
    ensures |record| >= 5 && |record| == 5 + record[0] as nat
    ensures Check(record) == Good(record[0], Pair(record[1], record[2]), record[3], record[4..4 + record[0] as nat])
  {
  }

  lemma DataFits(base: nat, line: nat, bytes: seq<byte>)
    requires IsDataLine(Record(bytes)) && AfterLine(base, line, Record(bytes)).Reading?
    ensures base + Check(bytes).address + Check(bytes).count <= MEM_SIZE
    ensures |Check(bytes).data| == Check(bytes).count
  {
  }

  /** The image before the fill: 0xFF where nothing was put. */
  function Written(lines: seq<Line>, k: nat, a: nat): byte
    requires k <= |lines|
  {
    match LastCover(lines, k, a) case Some(j) => ByteAt(lines, j, a) case None => 0xFF
  }

  method Store(image: array<byte>, at: nat, data: seq<byte>)
    requires at + |data| <= image.Length
    modifies image
    ensures forall a :: 0 <= a < image.Length ==>
      image[a] == if at <= a < at + |data| then data[a - at] else old(image[a])
  {
    forall i | 0 <= i < |data| { image[at + i] := data[i]; }
  }

  /** Once reading is over nothing changes any more. */
  lemma {:induction false} StaysPut(lines: seq<Line>, k: nat, n: nat)
    requires k <= n <= |lines| && !Progressed(lines, k).Reading?
    ensures Progressed(lines, n) == Progressed(lines, k)
    ensures Lowest(lines, n) == Lowest(lines, k)
    ensures forall a :: LastCover(lines, n, a) == LastCover(lines, k, a)
  {
    hide AfterLine, Check, Start, Covers;
    if k < n {
      StaysPut(lines, k, n - 1);
      assert !Progressed(lines, n - 1).Reading?;
      NotRead(lines, n - 1);
    }
  }

  /** A line that ends the reading puts nothing anywhere. */
  lemma NotCovering(lines: seq<Line>, k: nat)
    requires k < |lines| && !Progressed(lines, k + 1).Reading?
    ensures Lowest(lines, k + 1) == Lowest(lines, k)
    ensures forall a :: LastCover(lines, k + 1, a) == LastCover(lines, k, a)
  {
    hide AfterLine, Check, Start;
  }

  lemma NotRead(lines: seq<Line>, k: nat)
    requires k < |lines| && !Progressed(lines, k).Reading?
    ensures !IsData(lines, k) && forall a :: !Covers(lines, k, a)
  {
  }

  // ---------------------------------------------------------------- corruption

  lemma {:induction false} SumOfReplaced(bytes: seq<byte>, i: nat, v: byte)
    requires i < |bytes|
    ensures Sum(bytes[i := v]) == Sum(bytes) - bytes[i] + v
  {
    var n := |bytes| - 1;
    if i < n {
      SumOfReplaced(bytes[..n], i, v);
      assert bytes[i := v][..n] == bytes[..n][i := v];
    } else {
      assert bytes[i := v][..n] == bytes[..n];
    }
  }

  /** A good record with one byte replaced is a bad one, whichever byte it is. */
  lemma ReplacedByteIsBad(bytes: seq<byte>, i: nat, v: byte)
    requires Check(bytes).Good? && i < |bytes| && v != bytes[i]
    ensures Check(bytes[i := v]).Bad?
  {
    hide Sum;
    SumOfReplaced(bytes, i, v);
    Residues(Sum(bytes), bytes[i], v);
  }

  lemma Residues(sum: nat, old_: byte, v: byte)
    requires sum % 0x100 == 0 && old_ != v
    ensures (sum - old_ + v) % 0x100 != 0
  {
  }

  lemma {:induction false} SamePrefix(lines: seq<Line>, other: seq<Line>, k: nat)
    requires k <= |lines| == |other| && lines[..k] == other[..k]
    ensures Progressed(lines, k) == Progressed(other, k)
  {
    hide AfterLine;
    if k > 0 {
      assert lines[..k - 1] == lines[..k][..k - 1] && lines[k - 1] == lines[..k][k - 1];
      assert other[..k - 1] == other[..k][..k - 1] && other[k - 1] == other[..k][k - 1];
      SamePrefix(lines, other, k - 1);
    }
  }

  /** Replacing one byte of any record that an accepted file is read from, the end of
      file record included, has the file rejected at that line. */
  lemma CorruptionIsRejected(lines: seq<Line>, k: nat, i: nat, v: byte)
    requires !Progressed(lines, |lines|).Failed?
    requires k < |lines| && Progressed(lines, k).Reading?
    requires lines[k].Record? && i < |lines[k].bytes| && v != lines[k].bytes[i]
    ensures var bad := lines[k := Record(lines[k].bytes[i := v])];
            Progressed(bad, |bad|).Failed? && Progressed(bad, |bad|).line == k + 1
  {
    hide Check, IsData, Covers;
    var bad := lines[k := Record(lines[k].bytes[i := v])];
    if !Progressed(lines, k + 1).Reading? { StaysPut(lines, k + 1, |lines|); }
    else { NoFailure(lines, k + 1); }
    ReplacedByteIsBad(lines[k].bytes, i, v);
    SamePrefix(lines, bad, k);
    StaysPut(bad, k + 1, |bad|);
  }

  lemma NoFailure(lines: seq<Line>, k: nat)
    requires k <= |lines| && Progressed(lines, k).Reading?
    ensures !Progressed(lines, k).Failed?
  {
  }

  // ---------------------------------------------------------------- printing

  const BYTES_PER_LINE: nat := 32

  function HexDigit(n: nat): char
    requires n < 16
  {
    "0123456789abcdef"[n]
  }

  function Token(b: byte): (t: string)
    ensures |t| == 4
  {
    ['0', 'x', HexDigit(b / 0x10), HexDigit(b % 0x10)]
  }

  function Item(image: seq<byte>, i: nat): string
    requires i < |image|
  {
    Token(image[i]) + if i != |image| - 1 then "," else ""
  }

  function Concat(items: seq<string>): string {
    if items == [] then "" else items[0] + Concat(items[1..])
  }

  function Joined(parts: seq<string>): string {
    if parts == [] then "" else if |parts| == 1 then parts[0] else parts[0] + "\n" + Joined(parts[1..])
  }

  function Items(image: seq<byte>, from: nat, to: nat): seq<string>
    requires from <= to <= |image|
    decreases |image| - from
  {
    if from == to then [] else [Item(image, from)] + Items(image, from + 1, to)
  }

  function LineEnd(image: seq<byte>, offset: nat): nat
    requires offset < |image|
  {
    if offset + 32 < |image| then offset + 32 else |image|
  }

  function Chunks(image: seq<byte>, offset: nat): seq<string>
    decreases |image| - offset
  {
    if offset >= |image| then [] else
    [Concat(Items(image, offset, LineEnd(image, offset)))] + Chunks(image, offset + 32)
  }

  function Printed(image: seq<byte>): string { Joined(["", "{"] + Chunks(image, 0) + ["};", ""]) }

  method WriteHarnessHex(image: seq<byte>) returns (text: string)
    ensures text == Printed(image)
  {
    var parts := ["", "{"];
    var offset := 0;
    while offset < |image|
      invariant parts + Chunks(image, offset) == ["", "{"] + Chunks(image, 0)
    {
      var line := WriteLine(image, offset);
      Regroup(parts, line, Chunks(image, offset + BYTES_PER_LINE));
      parts := parts + [line];
      offset := offset + BYTES_PER_LINE;
    }
    assert parts + ["};", ""] == ["", "{"] + Chunks(image, 0) + ["};", ""];
    parts := parts + ["};", ""];
    text := Joined(parts);
  }

  method WriteLine(image: seq<byte>, offset: nat) returns (line: string)
    requires offset < |image|
    ensures line == Concat(Items(image, offset, LineEnd(image, offset)))
  {
    hide Token;
    var end := offset + BYTES_PER_LINE;
    if end > |image| { end := |image|; }
    var lineItems := [];
    for i := offset to end
      invariant lineItems + Items(image, i, end) == Items(image, offset, end)
    {
      var item := Token(image[i]);
      if i != |image| - 1 { item := item + ","; }
      assert item == Item(image, i);
      Regroup(lineItems, item, Items(image, i + 1, end));
      lineItems := lineItems + [item];
    }
    assert lineItems + [] == lineItems;
    line := Concat(lineItems);
  }

  lemma Regroup(a: seq<string>, x: string, b: seq<string>)
    ensures (a + [x]) + b == a + ([x] + b)
  {
  }

  // ---------------------------------------------------------------- reading back

  function Digit(c: char): (n: int) ensures -1 <= n < 16 {
    if '0' <= c <= '9' then c as int - '0' as int
    else if 'a' <= c <= 'f' then c as int - 'a' as int + 10 else -1
  }

  /** The tokens up to the closing brace; a comma after every token but the last. */
  function Tokens(s: string): Option<seq<byte>>
    decreases |s|
  {
    if s == "};\n" then Some([])
    else if |s| < 4 || s[0] != '0' || s[1] != 'x' || Digit(s[2]) < 0 || Digit(s[3]) < 0 then None
    else
      var b := Digit(s[2]) * 0x10 + Digit(s[3]);
      var rest := AfterComma(s[4..]);
      if rest.None? || Tokens(rest.value).None? then None else Some([b] + Tokens(rest.value).value)
  }

  /** What follows a token: a comma, a line end, or both. */
  function AfterComma(s: string): (r: Option<string>)
    ensures r.Some? ==> |r.value| <= |s|
  {
    if s == "\n};\n" then Some("};\n")
    else if |s| > 0 && s[0] == ',' then Some(if |s| > 1 && s[1] == '\n' then s[2..] else s[1..])
    else None
  }

  function ReadBack(text: string): Option<seq<byte>> {
    if |text| >= 3 && text[..3] == "\n{\n" then Tokens(text[3..]) else None
  }

  lemma TokenReads(b: byte)
    ensures Digit(Token(b)[2]) == b / 0x10 && Digit(Token(b)[3]) == b % 0x10
  {
    DigitOfHexDigit(b / 0x10);
    DigitOfHexDigit(b % 0x10);
  }

  lemma DigitOfHexDigit(n: nat)
    requires n < 16
    ensures Digit(HexDigit(n)) == n
  {
  }

  lemma TokenThen(b: byte, s: string)
    ensures var r := AfterComma(s);
            Tokens(Token(b) + s) == if r.None? || Tokens(r.value).None? then None else Some([b] + Tokens(r.value).value)
  {
    TokenReads(b);
    var t := Token(b) + s;
    assert t[4..] == s && t[0] == '0' && t[1] == 'x' && t[2] == Token(b)[2] && t[3] == Token(b)[3];
    assert t != "};\n";
  }

  /** A printed line, with a tail that reads as the rest of the image. */
  lemma {:induction false} LineReads(image: seq<byte>, from: nat, to: nat, tail: string)
    requires from < to <= |image| && Tokens(tail) == Some(image[to..]) && (to == |image| ==> tail == "};\n")
    ensures Tokens(Concat(Items(image, from, to)) + "\n" + tail) == Some(image[from..])
    decreases |image| - from
  {
    hide Tokens, Token, Concat;
    if from + 1 == to {
      LastItemReads(image, from, tail);
      assert Items(image, from, to) == [Item(image, from)] + [];
      ConcatUnfolds(Item(image, from), []);
      assert Item(image, from) + "" == Item(image, from);
    } else {
      var more := Concat(Items(image, from + 1, to));
      var rest := more + "\n" + tail;
      LineReads(image, from + 1, to, tail);
      FirstCharacter(image, from + 1, to);
      ConcatUnfolds(Item(image, from), Items(image, from + 1, to));
      assert Concat(Items(image, from, to)) + "\n" + tail == Token(image[from]) + ("," + rest);
      assert ("," + rest)[1..] == rest && rest[0] == '0';
      TokenThen(image[from], "," + rest);
      assert [image[from]] + image[from + 1..] == image[from..];
    }
  }

  lemma ConcatUnfolds(item: string, more: seq<string>)
    ensures Concat([item] + more) == item + Concat(more) && Concat([]) == ""
  {
    assert ([item] + more)[1..] == more;
  }

  lemma LastItemReads(image: seq<byte>, i: nat, tail: string)
    requires i < |image| && Tokens(tail) == Some(image[i + 1..]) && (i + 1 == |image| ==> tail == "};\n")
    ensures Tokens(Item(image, i) + "\n" + tail) == Some(image[i..])
  {
    hide Tokens, Token;
    var token := Token(image[i]);
    assert [image[i]] + image[i + 1..] == image[i..];
    if i + 1 < |image| {
      assert Item(image, i) + "\n" + tail == token + (",\n" + tail);
      assert (",\n" + tail)[2..] == tail;
      TokenThen(image[i], ",\n" + tail);
    } else {
      assert Item(image, i) + "\n" + tail == token + "\n};\n";
      TokenThen(image[i], "\n};\n");
    }
  }

  lemma FirstCharacter(image: seq<byte>, from: nat, to: nat)
    requires from < to <= |image|
    ensures var line := Concat(Items(image, from, to)); |line| > 0 && line[0] == '0'
  {
  }

  lemma {:induction false} ChunksRead(image: seq<byte>, offset: nat)
    requires offset <= |image|
    ensures Tokens(Joined(Chunks(image, offset) + ["};", ""])) == Some(image[offset..])
    decreases |image| - offset
  {
    hide Tokens, Items, Concat;
    if offset == |image| {
      ClosingLine();
      assert Chunks(image, offset) == [] && image[offset..] == [];
    } else {
      var end := LineEnd(image, offset);
      var rest := Chunks(image, offset + 32) + ["};", ""];
      var line := Concat(Items(image, offset, end));
      assert Chunks(image, end) == Chunks(image, offset + 32);
      ChunksRead(image, end);
      if end == |image| { ClosingLine(); }
      LineReads(image, offset, end, Joined(rest));
      assert Chunks(image, offset) + ["};", ""] == [line] + rest;
      assert Joined([line] + rest) == line + "\n" + Joined(rest);
    }
  }

  lemma ClosingLine()
    ensures Joined([] + ["};", ""]) == "};\n" && Tokens("};\n") == Some([])
  {
    assert Joined(["};", ""]) == "};" + "\n" + Joined([""]);
  }

  /** Reading back what was printed recovers the image, of whatever length. */
  lemma PrintedReadsBack(image: seq<byte>)
    ensures ReadBack(Printed(image)) == Some(image)
  {
    hide Tokens, Chunks;
    var rest := Chunks(image, 0) + ["};", ""];
    ChunksRead(image, 0);
    var parts := ["", "{"] + rest;
    assert parts[1..] == ["{"] + rest && parts[1..][1..] == rest;
    assert Joined(parts) == "" + "\n" + ("{" + "\n" + Joined(rest));
    assert ["", "{"] + Chunks(image, 0) + ["};", ""] == parts;
    assert Joined(parts)[3..] == Joined(rest);
    assert image[0..] == image;
  }
}
