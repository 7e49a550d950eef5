/** Amstrad .dsk images put together from the format, standard and extended, and what
    inserting one and reading it gives. */
module DskBuilder {
  import opened Words
  import opened Arithmetic
  import opened Fdd
  import opened FddCpc

  /** A sector: its ID, its status bytes, the length field an extended image gives it,
      and its bytes. */
  datatype SectorImage =
    SectorImage(c: byte, h: byte, r: byte, n: byte, st1: byte, st2: byte, length: word, data: seq<byte>)

  /** A track; `text`, `gap` and `pad` are the parts of its information block that the
      drive does not look at. */
  datatype TrackImage =
    | Unformatted
    | Formatted(text: seq<byte>, sizeCode: byte, gap: seq<byte>, sectors: seq<SectorImage>, pad: seq<byte>)

  /** A disc: the track of side s with index t is number t * numSides + s. The header's
      track size counts in a standard image and its size table in an extended one. */
  datatype DiscImage =
    DiscImage(extended: bool, text: seq<byte>, numTracks: byte, numSides: byte, trackSize: word,
              table: seq<byte>, tracks: seq<TrackImage>, rest: seq<byte>)

  // ---------------------------------------------------------------- building

  function Ascii(s: string): (bytes: seq<byte>)
    requires forall i :: 0 <= i < |s| ==> s[i] < 128 as char
    ensures |bytes| == |s|
  {
    seq(|s|, i requires 0 <= i < |s| => s[i] as int)
  }

  function Entry(s: SectorImage): (bytes: seq<byte>)
    ensures |bytes| == 8
  {
    [s.c, s.h, s.r, s.n, s.st1, s.st2, s.length % 0x100, s.length / 0x100]
  }

  /** The entries of the first k sectors. */
  function Entries(sectors: seq<SectorImage>, k: nat): (bytes: seq<byte>)
    requires k <= |sectors|
    ensures |bytes| == 8 * k
  {
    if k == 0 then [] else Entries(sectors, k - 1) + Entry(sectors[k - 1])
  }

  /** The bytes of the first k sectors. */
  function Data(sectors: seq<SectorImage>, k: nat): seq<byte>
    requires k <= |sectors|
  {
    if k == 0 then [] else Data(sectors, k - 1) + sectors[k - 1].data
  }

  /** The information block that opens a track. */
  function InfoBlock(t: TrackImage): (bytes: seq<byte>)
    requires t.Formatted? && |t.sectors| < 0x100
  {
    Ascii("Track-Info") + t.text + [t.sizeCode, |t.sectors|] + t.gap + Entries(t.sectors, |t.sectors|) + t.pad
  }

  function TrackBytes(t: TrackImage): seq<byte>
    requires t.Formatted? ==> |t.sectors| < 0x100
  {
    if t.Unformatted? then [] else InfoBlock(t) + Data(t.sectors, |t.sectors|)
  }

  predicate WellFormedTrack(t: TrackImage, extended: bool) {
    t.Formatted? ==>
      && |t.text| == 10 && |t.gap| == 2 && 8 * |t.sectors| + |t.pad| == 232
      && forall i :: 0 <= i < |t.sectors| ==>
           |t.sectors[i].data| == if extended then t.sectors[i].length else 128 * Pow2(t.sizeCode)
  }

  /** A track counts its sectors in one byte. */
  predicate Countable(tracks: seq<TrackImage>) {
    forall i :: 0 <= i < |tracks| && tracks[i].Formatted? ==> |tracks[i].sectors| < 0x100
  }

  /** The first k tracks. */
  function Body(tracks: seq<TrackImage>, k: nat): seq<byte>
    requires k <= |tracks| && Countable(tracks)
  {
    if k == 0 then [] else Body(tracks, k - 1) + TrackBytes(tracks[k - 1])
  }

  function Header(d: DiscImage): seq<byte> {
    Ascii(if d.extended then "EXTENDED" else "MV - CPC") + d.text
    + [d.numTracks, d.numSides, d.trackSize % 0x100, d.trackSize / 0x100] + d.table
  }

  ghost predicate WellFormed(d: DiscImage) {
    && |d.text| == 40 && |d.table| == 204 && Countable(d.tracks)
    && |d.tracks| == d.numTracks * d.numSides
    && (forall k :: 0 <= k < |d.tracks| ==> WellFormedTrack(d.tracks[k], d.extended))
    && (d.extended ==> |d.tracks| <= 204)
    && forall k :: 0 <= k < |d.tracks| ==>
         |TrackBytes(d.tracks[k])| == if d.extended then d.table[k] as int * 0x100 else d.trackSize
  }

  function Image(d: DiscImage): seq<byte>
    requires Countable(d.tracks)
  {
    Header(d) + Body(d.tracks, |d.tracks|) + d.rest
  }

  // ---------------------------------------------------------------- where the bytes are

  lemma HeaderAt(d: DiscImage)
    requires |d.text| == 40 && |d.table| == 204
    ensures var h := Header(d);
            && |h| == 256 && h[..8] == Ascii(if d.extended then "EXTENDED" else "MV - CPC")
            && h[48] == d.numTracks && h[49] == d.numSides && Pair(h[51], h[50]) == d.trackSize
            && forall k :: 0 <= k < 204 ==> h[52 + k] == d.table[k]
  {
    hide Ascii;
  }

  lemma {:induction false} BodyAt(tracks: seq<TrackImage>, k: nat, n: nat)
    requires k < n <= |tracks| && Countable(tracks)
    ensures var at, size := |Body(tracks, k)|, |TrackBytes(tracks[k])|;
            at + size <= |Body(tracks, n)| && Body(tracks, n)[at..at + size] == TrackBytes(tracks[k])
    decreases n
  {
    hide TrackBytes, Countable;
    if k < n - 1 { BodyAt(tracks, k, n - 1); }
  }

  lemma {:induction false} EntriesAt(sectors: seq<SectorImage>, i: nat, n: nat)
    requires i < n <= |sectors|
    ensures Entries(sectors, n)[8 * i..8 * i + 8] == Entry(sectors[i])
    decreases n
  {
    hide Entry;
    if i < n - 1 { EntriesAt(sectors, i, n - 1); }
  }

  lemma {:induction false} DataAt(sectors: seq<SectorImage>, i: nat, n: nat)
    requires i < n <= |sectors|
    ensures var at, size := |Data(sectors, i)|, |sectors[i].data|;
            at + size <= |Data(sectors, n)| && Data(sectors, n)[at..at + size] == sectors[i].data
    decreases n
  {
    if i < n - 1 { DataAt(sectors, i, n - 1); }
  }

  lemma InfoBlockAt(t: TrackImage, extended: bool)
    requires t.Formatted? && WellFormedTrack(t, extended)
    ensures var b := InfoBlock(t);
            && |b| == 256 && b[..10] == Ascii("Track-Info") && b[20] == t.sizeCode && b[21] == |t.sectors|
            && b[24..24 + 8 * |t.sectors|] == Entries(t.sectors, |t.sectors|)
  {
    hide Ascii, Entries;
  }

  /** The track is in the image, from `start` on. */
  predicate Contains(img: seq<byte>, start: nat, t: TrackImage)
    requires t.Formatted? ==> |t.sectors| < 0x100
  {
    start + |TrackBytes(t)| <= |img| && img[start..start + |TrackBytes(t)|] == TrackBytes(t)
  }

  lemma BlockByte(img: seq<byte>, start: nat, t: TrackImage, j: nat)
    requires t.Formatted? && |t.sectors| < 0x100 && |InfoBlock(t)| == 256 && Contains(img, start, t) && j < 256
    ensures Peek(img, start + j) == InfoBlock(t)[j]
  {
    hide InfoBlock, Data;
    assert img[start..start + |TrackBytes(t)|][j] == img[start + j];
  }

  lemma SliceOfSlice(b: seq<byte>, from: nat, entries: seq<byte>, i: nat, f: nat)
    requires from + |entries| <= |b| && b[from..from + |entries|] == entries && 8 * i + 8 <= |entries| && f < 8
    ensures b[from + 8 * i + f] == entries[8 * i..8 * i + 8][f]
  {
    assert b[from + (8 * i + f)] == entries[8 * i + f];
  }

  /** Entry i of the information block. */
  lemma InfoAt(img: seq<byte>, start: nat, t: TrackImage, extended: bool, i: nat, f: nat)
    requires t.Formatted? && WellFormedTrack(t, extended) && Contains(img, start, t) && i < |t.sectors| && f < 8
    ensures Info(img, start, i, f) == Entry(t.sectors[i])[f]
  {
    hide InfoBlock, Data, Entries, Entry, Peek, Contains, Pow2;
    InfoBlockAt(t, extended);
    EntriesAt(t.sectors, i, |t.sectors|);
    SliceOfSlice(InfoBlock(t), 24, Entries(t.sectors, |t.sectors|), i, f);
    BlockByte(img, start, t, 24 + 8 * i + f);
  }

  lemma InfoFields(img: seq<byte>, start: nat, t: TrackImage, extended: bool, i: nat)
    requires t.Formatted? && WellFormedTrack(t, extended) && Contains(img, start, t) && i < |t.sectors|
    ensures var s := t.sectors[i];
            && Info(img, start, i, 0) == s.c && Info(img, start, i, 1) == s.h && Info(img, start, i, 2) == s.r
            && Info(img, start, i, 3) == s.n && Info(img, start, i, 4) == s.st1 && Info(img, start, i, 5) == s.st2
            && Pair(Info(img, start, i, 7), Info(img, start, i, 6)) == s.length
  {
    hide WellFormedTrack, Contains, Info, Pair;
    forall f | 0 <= f < 8 ensures Info(img, start, i, f) == Entry(t.sectors[i])[f] {
      InfoAt(img, start, t, extended, i, f);
    }
    PairOfLength(t.sectors[i].length);
  }

  lemma PairOfLength(length: word)
    ensures Pair(length / 0x100, length % 0x100) == length
  {
  }

  lemma BlockFields(img: seq<byte>, start: nat, t: TrackImage, extended: bool)
    requires t.Formatted? && WellFormedTrack(t, extended) && Contains(img, start, t)
    ensures HasMagic(img, start, TRACK_INFO) && NumSectors(img, start) == |t.sectors|
    ensures Peek(img, start + 20) == t.sizeCode
  {
    hide InfoBlock, Data, Peek, Contains, Pow2;
    InfoBlockAt(t, extended);
    var b := InfoBlock(t);
    forall j | 0 <= j < 256 ensures Peek(img, start + j) == b[j] { BlockByte(img, start, t, j); }
    TrackMagic();
    assert forall j :: 0 <= j < 10 ==> b[j] == b[..10][j];
  }

  lemma TrackMagic()
    ensures Ascii("Track-Info") == TRACK_INFO && |TRACK_INFO| == 10
  {
  }

  lemma DiscMagic()
    ensures Ascii("MV - CPC") == STANDARD && Ascii("EXTENDED") == EXTENDED && |STANDARD| == |EXTENDED| == 8
  {
  }

  // ---------------------------------------------------------------- sectors

  lemma SizeOfSector(img: seq<byte>, start: nat, t: TrackImage, extended: bool, i: nat)
    requires t.Formatted? && WellFormedTrack(t, extended) && Contains(img, start, t) && i < |t.sectors|
    ensures SectorSize(img, extended, start, i) == |t.sectors[i].data|
  {
    hide Contains, Info, Pair, Peek, Pow2;
    InfoFields(img, start, t, extended, i);
    BlockFields(img, start, t, extended);
  }

  lemma {:induction false} SectorStarts(img: seq<byte>, start: nat, t: TrackImage, extended: bool, i: nat)
    requires t.Formatted? && WellFormedTrack(t, extended) && Contains(img, start, t) && i <= |t.sectors|
    ensures SectorStart(img, extended, start, i) == start + 256 + |Data(t.sectors, i)|
    decreases i
  {
    hide Contains, WellFormedTrack, SectorSize;
    if i > 0 {
      SectorStarts(img, start, t, extended, i - 1);
      SizeOfSector(img, start, t, extended, i - 1);
    }
  }

  /** Where the bytes of a sector are. */
  lemma SectorBytes(img: seq<byte>, start: nat, t: TrackImage, extended: bool, i: nat)
    requires t.Formatted? && WellFormedTrack(t, extended) && Contains(img, start, t) && i < |t.sectors|
    ensures var at, size := start + 256 + |Data(t.sectors, i)|, |t.sectors[i].data|;
            at + size <= |img| && img[at..at + size] == t.sectors[i].data
  {
    hide InfoBlock, Data, Pow2;
    InfoBlockAt(t, extended);
    DataAt(t.sectors, i, |t.sectors|);
    var all, inTrack := TrackBytes(t), 256 + |Data(t.sectors, i)|;
    var size := |t.sectors[i].data|;
    assert all[inTrack..inTrack + size] == t.sectors[i].data by {
      SliceOfAppended(InfoBlock(t), Data(t.sectors, |t.sectors|), |Data(t.sectors, i)|, size);
    }
    SubSlice(img, start, |all|, inTrack, size);
  }

  lemma SliceOfAppended(a: seq<byte>, b: seq<byte>, at: nat, size: nat)
    requires at + size <= |b|
    ensures (a + b)[|a| + at..|a| + at + size] == b[at..at + size]
  {
  }

  lemma SubSlice(img: seq<byte>, start: nat, n: nat, at: nat, size: nat)
    requires start + n <= |img| && at + size <= n
    ensures img[start..start + n][at..at + size] == img[start + at..start + at + size]
  {
    var a, b := img[start..start + n][at..at + size], img[start + at..start + at + size];
    forall j | 0 <= j < size ensures a[j] == b[j] {
      assert img[start..start + n][at + j] == img[start + (at + j)];
    }
  }

  /** The drive's entry for a sector says what was built, and where its bytes are. */
  predicate IsBuilt(s: Sector, built: SectorImage, img: seq<byte>) {
    && s.c == built.c && s.h == built.h && s.r == built.r && s.n == built.n && s.st1 == built.st1 && s.st2 == built.st2
    && s.dataSize == |built.data|
    && s.dataOffset + s.dataSize <= |img| && img[s.dataOffset..s.dataOffset + s.dataSize] == built.data
  }

  lemma SectorIsBuilt(img: seq<byte>, start: nat, t: TrackImage, extended: bool, i: nat)
    requires t.Formatted? && WellFormedTrack(t, extended) && Contains(img, start, t) && i < |t.sectors|
    ensures IsBuilt(SectorOf(img, extended, start, i), t.sectors[i], img)
  {
    hide Contains, WellFormedTrack, SectorSize, SectorStart, Info, Pair;
    InfoFields(img, start, t, extended, i);
    SizeOfSector(img, start, t, extended, i);
    SectorStarts(img, start, t, extended, i);
    SectorBytes(img, start, t, extended, i);
  }

  // ---------------------------------------------------------------- tracks

  lemma HeaderFields(d: DiscImage)
    requires WellFormed(d)
    ensures var img := Image(d);
            && |img| >= 256 && NumTracks(img) == d.numTracks && NumSides(img) == d.numSides
            && HasMagic(img, 0, if d.extended then EXTENDED else STANDARD)
            && forall k :: 0 <= k < |d.tracks| ==> TrackSize(img, d.extended, k) == |TrackBytes(d.tracks[k])|
  {
    hide Header, Body, TrackBytes, Pair, WellFormedTrack;
    HeaderAt(d);
    DiscMagic();
    var img, h := Image(d), Header(d);
    assert forall j :: 0 <= j < 256 ==> Peek(img, j) == h[j];
    assert forall j :: 0 <= j < 8 ==> h[j] == h[..8][j];
    forall k | 0 <= k < |d.tracks| ensures TrackSize(img, d.extended, k) == |TrackBytes(d.tracks[k])| {
      if d.extended { assert Peek(img, 52 + k) == h[52 + k] == d.table[k]; }
    }
  }

  lemma {:induction false} TrackStarts(d: DiscImage, k: nat)
    requires WellFormed(d) && k <= |d.tracks|
    ensures TrackStart(Image(d), d.extended, k) == 256 + |Body(d.tracks, k)|
    decreases k
  {
    hide Image, TrackSize, TrackBytes, WellFormedTrack;
    if k > 0 {
      TrackStarts(d, k - 1);
      HeaderFields(d);
    }
  }

  lemma TrackIsThere(d: DiscImage, k: nat)
    requires WellFormed(d) && k < |d.tracks|
    ensures Contains(Image(d), TrackStart(Image(d), d.extended, k), d.tracks[k])
  {
    hide Header, Body, TrackBytes, TrackStart, WellFormedTrack;
    TrackStarts(d, k);
    HeaderAt(d);
    BodyAt(d.tracks, k, |d.tracks|);
    var body, at, size := Body(d.tracks, |d.tracks|), |Body(d.tracks, k)|, |TrackBytes(d.tracks[k])|;
    SliceOfAppended(Header(d), body + d.rest, at, size);
    assert Header(d) + body + d.rest == Header(d) + (body + d.rest);
    assert (body + d.rest)[at..at + size] == body[at..at + size];
  }

  /** The drive has room for twelve sectors a track. */
  predicate HasRoom(t: TrackImage) { t.Formatted? ==> |t.sectors| <= 12 }

  lemma OutcomeOfTrack(d: DiscImage, k: nat)
    requires WellFormed(d) && k < |d.tracks|
    ensures TrackOutcome(Image(d), d.extended, k) == if HasRoom(d.tracks[k]) then Accepted else Undefined
  {
    hide Image, SectorStart, TrackStart, TrackSize, HasMagic, Peek, Contains, InfoBlock, Data, Countable;
    var img, t := Image(d), d.tracks[k];
    var start := TrackStart(img, d.extended, k);
    HeaderFields(d);
    TrackIsThere(d, k);
    if t.Formatted? {
      InfoBlockAt(t, d.extended);
      BlockFields(img, start, t, d.extended);
      SectorStarts(img, start, t, d.extended, |t.sectors|);
      if !d.extended && |t.sectors| > 0 { SmallCode(d, k); }
      TrackFits(img, start, t);
    }
  }

  lemma TrackFits(img: seq<byte>, start: nat, t: TrackImage)
    requires t.Formatted? && |t.sectors| < 0x100 && Contains(img, start, t)
    ensures start + |TrackBytes(t)| <= |img| && |TrackBytes(t)| == |InfoBlock(t)| + |Data(t.sectors, |t.sectors|)|
  {
    hide InfoBlock, Data;
  }

  /** A standard image's track size is a 16-bit number. */
  lemma SmallCode(d: DiscImage, k: nat)
    requires WellFormed(d) && !d.extended && k < |d.tracks|
    requires d.tracks[k].Formatted? && |d.tracks[k].sectors| > 0
    ensures d.tracks[k].sizeCode < 24
  {
    hide InfoBlock, Data, Pow2;
    var t := d.tracks[k];
    InfoBlockAt(t, false);
    DataAt(t.sectors, 0, |t.sectors|);
    if t.sizeCode >= 24 { PowersGrow(24, t.sizeCode); LargePower(); }
  }

  lemma {:induction false} PowersGrow(m: nat, n: nat)
    requires m <= n
    ensures Pow2(m) <= Pow2(n)
    decreases n
  {
    if m < n { PowersGrow(m, n - 1); }
  }

  lemma LargePower()
    ensures Pow2(24) >= 0x1_0000
  {
    assert Pow2(9) == 0x200;
    assert Pow2(16) == 0x1_0000;
    PowersGrow(16, 24);
  }

  // ---------------------------------------------------------------- discs

  lemma MagicIsBytes(img: seq<byte>, at: nat, magic: seq<byte>)
    requires magic != [] && magic[|magic| - 1] != 0
    ensures HasMagic(img, at, magic) <==> at + |magic| <= |img| && img[at..at + |magic|] == magic
  {
    if at + |magic| > |img| {
      assert Peek(img, at + (|magic| - 1)) == 0;
    } else {
      var spelt := img[at..at + |magic|];
      forall i | 0 <= i < |magic| ensures spelt[i] == magic[i] <==> Peek(img, at + i) == magic[i] { }
    }
  }

  /** Whatever does not begin as one of the two formats is rejected, and so is a
      formatted track that does not begin as one, or leaves the image. */
  lemma OthersAreRejected(img: seq<byte>, extended: bool, k: nat)
    ensures InsertOutcome(img) != Rejected ==>
      256 < |img| <= 983040 && (img[..8] == Ascii("MV - CPC") || img[..8] == Ascii("EXTENDED"))
    ensures TrackOutcome(img, extended, k) != Rejected && TrackSize(img, extended, k) != 0 ==>
      var start := TrackStart(img, extended, k);
      && start + TrackSize(img, extended, k) <= |img|
      && start + 10 <= |img| && img[start..start + 10] == Ascii("Track-Info")
  {
    hide Ascii, HasMagic, ParseOutcome, TrackSize, TrackStart, SectorStart, Peek;
    DiscMagic();
    TrackMagic();
    MagicIsBytes(img, 0, STANDARD);
    MagicIsBytes(img, 0, EXTENDED);
    MagicIsBytes(img, TrackStart(img, extended, k), TRACK_INFO);
  }

  /** What the drive has room for. */
  ghost predicate Fits(d: DiscImage) {
    && d.numSides <= 2 && d.numTracks <= 80 && forall k :: 0 <= k < |d.tracks| ==> HasRoom(d.tracks[k])
  }

  lemma {:induction false} OutcomeOfTracks(d: DiscImage, n: nat)
    requires WellFormed(d) && n <= |d.tracks|
    ensures TracksOutcome(Image(d), d.extended, n) == Accepted <==> forall k :: 0 <= k < n ==> HasRoom(d.tracks[k])
  {
    hide WellFormed, Image, TrackOutcome, HasRoom;
    if n > 0 {
      OutcomeOfTracks(d, n - 1);
      OutcomeOfTrack(d, n - 1);
    }
  }

  /** An image is accepted exactly if it fits: a header and something after it, at most
      983040 bytes, two sides, eighty tracks a side and twelve sectors a track. */
  lemma BuiltIsAccepted(d: DiscImage)
    requires WellFormed(d)
    ensures InsertOutcome(Image(d)) == Accepted <==> 256 < |Image(d)| <= 983040 && Fits(d)
  {
    hide Image, TracksOutcome, HasMagic, HasRoom, WellFormedTrack, NumTracks, NumSides;
    HeaderFields(d);
    MagicsDiffer(Image(d));
    OutcomeOfTracks(d, |d.tracks|);
  }

  /** Number k in an accepted disc structure, and every sector of it. */
  ghost predicate IsBuiltTrack(t: Track, built: TrackImage, img: seq<byte>)
    requires TrackShaped(t)
  {
    && t.numSectors == (if built.Formatted? then |built.sectors| else 0)
    && forall i :: 0 <= i < t.numSectors ==> IsBuilt(t.sectors[i], built.sectors[i], img)
  }

  lemma TrackIsBuilt(d: DiscImage, k: nat)
    requires WellFormed(d) && k < |d.tracks| && HasRoom(d.tracks[k]) && |Image(d)| <= 983040
    ensures TrackShaped(TrackOf(Image(d), d.extended, k))
    ensures IsBuiltTrack(TrackOf(Image(d), d.extended, k), d.tracks[k], Image(d))
  {
    hide Image, SectorOf, TrackStart, TrackSize, Peek, Contains, InfoBlock, Data, Countable, IsBuilt, TrackShaped;
    var img, t := Image(d), d.tracks[k];
    var start := TrackStart(img, d.extended, k);
    OutcomeOfTrack(d, k);
    AcceptedIsShaped(img, d.extended, k);
    HeaderFields(d);
    TrackIsThere(d, k);
    if t.Formatted? {
      InfoBlockAt(t, d.extended);
      BlockFields(img, start, t, d.extended);
      forall i | 0 <= i < |t.sectors| ensures IsBuilt(SectorOf(img, d.extended, start, i), t.sectors[i], img) {
        SectorIsBuilt(img, start, t, d.extended, i);
      }
    }
  }

  function SectorsOf(t: TrackImage): seq<SectorImage> { if t.Formatted? then t.sectors else [] }

  /** The drive holds the disc: on every side and track as many sectors as were built
      in, each with its ID, status and length, and with its bytes. */
  ghost predicate Holds(fdd: Drive, d: DiscImage)
    reads fdd`disc, fdd.data
  {
    && fdd.data.Length == MAX_DISC_SIZE && Shaped(fdd.disc)
    && fdd.disc.numSides == d.numSides <= 2 && fdd.disc.numTracks == d.numTracks <= 80
    && |d.tracks| == d.numTracks * d.numSides
    && forall s, t :: 0 <= s < d.numSides && 0 <= t < d.numTracks ==>
         HoldsTrack(fdd, fdd.disc.tracks[s][t], SectorsOf(d.tracks[NumberOf(d, s, t)]))
  }

  /** The number of the track of side s with index t. */
  function NumberOf(d: DiscImage, s: nat, t: nat): (l: nat)
    requires s < d.numSides && t < d.numTracks && |d.tracks| == d.numTracks * d.numSides
    ensures l < |d.tracks|
  {
    WithinDisc(s, t, d.numSides, d.numTracks);
    t * d.numSides + s
  }

  ghost predicate HoldsTrack(fdd: Drive, track: Track, built: seq<SectorImage>)
    requires TrackShaped(track) && fdd.data.Length == MAX_DISC_SIZE
    reads fdd.data
  {
    && track.numSectors == |built|
    && forall i :: 0 <= i < |built| ==>
         var s := track.sectors[i];
         && s.c == built[i].c && s.h == built[i].h && s.r == built[i].r && s.n == built[i].n
         && s.st1 == built[i].st1 && s.st2 == built[i].st2 && fdd.Contents(s) == built[i].data
  }

  lemma BuiltIsHeld(fdd: Drive, d: DiscImage, track: Track, built: TrackImage, img: seq<byte>)
    requires TrackShaped(track) && fdd.data.Length == MAX_DISC_SIZE && IsBuiltTrack(track, built, img)
    requires |img| <= fdd.data.Length && fdd.data[..|img|] == img
    ensures HoldsTrack(fdd, track, SectorsOf(built))
  {
    forall i | 0 <= i < track.numSectors ensures fdd.Contents(track.sectors[i]) == built.sectors[i].data {
      ContentsInImage(fdd, track.sectors[i], img);
    }
  }

  lemma ContentsInImage(fdd: Drive, s: Sector, img: seq<byte>)
    requires s.dataOffset + s.dataSize <= |img| <= fdd.data.Length && fdd.data[..|img|] == img
    ensures fdd.Contents(s) == img[s.dataOffset..s.dataOffset + s.dataSize]
  {
    forall j | 0 <= j < s.dataSize ensures fdd.Contents(s)[j] == img[s.dataOffset + j] {
      assert fdd.data[..|img|][s.dataOffset + j] == fdd.data[s.dataOffset + j];
    }
  }

  lemma InsertedHolds(fdd: Drive, d: DiscImage)
    requires WellFormed(d) && Fits(d) && |Image(d)| <= 983040 && Inserted(fdd, Image(d), d.extended)
    ensures Holds(fdd, d)
  {
    hide Image, WellFormedTrack, HasMagic, TrackOf, IsBuiltTrack, HoldsTrack, TrackShaped, HasRoom;
    var img := Image(d);
    HeaderFields(d);
    forall s, t | 0 <= s < d.numSides && 0 <= t < d.numTracks
      ensures HoldsTrack(fdd, fdd.disc.tracks[s][t], SectorsOf(d.tracks[NumberOf(d, s, t)]))
    {
      var l := NumberOf(d, s, t);
      TrackIsBuilt(d, l);
      BuiltIsHeld(fdd, d, fdd.disc.tracks[s][t], d.tracks[l], img);
    }
  }

  /** Inserting a built image: what is accepted, and what the drive then holds. */
  method InsertBuilt(fdd: Drive, d: DiscImage) returns (o: Parsed)
    requires fdd.Valid() && WellFormed(d)
    modifies fdd, fdd.data
    ensures o == Accepted <==> 256 < |Image(d)| <= 983040 && Fits(d)
    ensures o == Accepted ==> fdd.Valid() && fdd.hasDisc && Holds(fdd, d)
  {
    hide Image, WellFormed, HasMagic, InsertOutcome, Filled, Holds, Fits, HasRoom;
    ImageNotEmpty(d);
    BuiltIsAccepted(d);
    o := InsertDsk(fdd, Image(d));
    if o == Accepted { InsertedHolds(fdd, d); }
  }

  lemma ImageNotEmpty(d: DiscImage)
    requires WellFormed(d)
    ensures |d.text| == 40 && Countable(d.tracks)
    ensures Image(d) != [] && HasMagic(Image(d), 0, EXTENDED) == d.extended
  {
    hide Image, WellFormedTrack, HasMagic, Countable;
    HeaderFields(d);
    MagicsDiffer(Image(d));
  }

  /** The first of the sectors with the record number r, or their number. */
  function First(sectors: seq<SectorImage>, r: byte): (i: nat)
    ensures i <= |sectors| && (i < |sectors| ==> sectors[i].r == r)
    ensures forall j :: 0 <= j < i ==> sectors[j].r != r
  {
    if sectors == [] || sectors[0].r == r then 0 else 1 + First(sectors[1..], r)
  }

  lemma {:induction false} SearchIsFirst(track: Track, built: seq<SectorImage>, r: byte, from: nat)
    requires TrackShaped(track) && track.numSectors == |built| && from <= |built|
    requires forall i :: 0 <= i < |built| ==> track.sectors[i].r == built[i].r
    ensures Find(track, r, from) == from + First(built[from..], r)
    decreases |built| - from
  {
    if from < |built| {
      SearchIsFirst(track, built, r, from + 1);
      assert built[from..][1..] == built[from + 1..];
    }
  }

  lemma FindIsFirst(fdd: Drive, track: Track, built: seq<SectorImage>, r: byte)
    requires TrackShaped(track) && fdd.data.Length == MAX_DISC_SIZE && HoldsTrack(fdd, track, built)
    ensures Find(track, r, 0) == First(built, r) && track.numSectors == |built|
    ensures var i := First(built, r); i < |built| ==> fdd.Contents(track.sectors[i]) == built[i].data
  {
    hide Find, First;
    SearchIsFirst(track, built, r, 0);
    assert built[0..] == built;
  }

  lemma HeldTrack(fdd: Drive, d: DiscImage, side: nat, track: nat)
    requires Holds(fdd, d) && side < d.numSides && track < d.numTracks
    ensures d.numSides <= 2 && d.numTracks <= 80 && fdd.disc.numTracks == d.numTracks
    ensures |d.tracks| == d.numTracks * d.numSides && fdd.data.Length == MAX_DISC_SIZE && Shaped(fdd.disc)
    ensures HoldsTrack(fdd, fdd.TrackAt(side, track), SectorsOf(d.tracks[NumberOf(d, side, track)]))
  {
    hide HoldsTrack, TrackShaped;
  }

  /** The first sector of a track with this record number, whole. */
  method ReadSector(fdd: Drive, side: nat, track: nat, r: byte) returns (o: Outcome, bytes: seq<byte>)
    requires fdd.Valid() && fdd.hasDisc && side < MAX_SIDES && track < fdd.disc.numTracks
    modifies fdd`motorOn, fdd`curSide, fdd`curTrackIndex, fdd`curSectorIndex, fdd`curSectorPos
    ensures fdd.Valid()
    ensures var t := fdd.TrackAt(side, track);
            var i := Find(t, r, 0);
            if i < t.numSectors then o == SUCCESS && bytes == fdd.Contents(t.sectors[i])
            else o == NOT_FOUND && bytes == []
  {
    hide Find, TrackShaped;
    fdd.Motor(true);
    o := fdd.SeekTrack(track);
    o := fdd.SeekSector(side, r);
    bytes := [];
    if o == SUCCESS {
      var reports;
      bytes, reports := fdd.ReadAll(side);
    }
  }

  /** A sector of a built disc, found by side, track and record number and read to its
      end, gives the bytes that were built in; if none has that number the seek says so. */
  method ReadBuilt(fdd: Drive, d: DiscImage, side: nat, track: nat, r: byte) returns (o: Outcome, bytes: seq<byte>)
    requires fdd.Valid() && fdd.hasDisc && Holds(fdd, d) && side < d.numSides && track < d.numTracks
    modifies fdd`motorOn, fdd`curSide, fdd`curTrackIndex, fdd`curSectorIndex, fdd`curSectorPos
    ensures fdd.Valid() && Holds(fdd, d) && |d.tracks| == d.numTracks * d.numSides
    ensures var built := SectorsOf(d.tracks[NumberOf(d, side, track)]);
            var i := First(built, r);
            if i < |built| then o == SUCCESS && bytes == built[i].data else o == NOT_FOUND && bytes == []
  {
    HeldTrack(fdd, d, side, track);
    hide Holds, HoldsTrack, Find, First, NumberOf, SectorsOf;
    ghost var built := SectorsOf(d.tracks[NumberOf(d, side, track)]);
    FindIsFirst(fdd, fdd.TrackAt(side, track), built, r);
    o, bytes := ReadSector(fdd, side, track, r);
  }
}
