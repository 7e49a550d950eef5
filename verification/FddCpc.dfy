/** Reading an Amstrad .dsk image, standard or extended, into the drive. */
module FddCpc {
  import opened Words
  import opened Arithmetic
  import opened Fdd

  const HEADER: nat := 0x100

  /** Asserted: the layout assertion fails. Undefined: more sectors than the track
      structure holds, or a shift C does not define. */
  datatype Parsed = Accepted | Rejected | Asserted | Undefined

  /** The image buffer; past the image it holds zeros. */
  function Peek(img: seq<byte>, i: nat): byte { if i < |img| then img[i] else 0 }

  predicate HasMagic(img: seq<byte>, at: nat, magic: seq<byte>) {
    forall i :: 0 <= i < |magic| ==> Peek(img, at + i) == magic[i]
  }

  const TRACK_INFO: seq<byte> := [0x54, 0x72, 0x61, 0x63, 0x6B, 0x2D, 0x49, 0x6E, 0x66, 0x6F]
  const STANDARD: seq<byte> := [0x4D, 0x56, 0x20, 0x2D, 0x20, 0x43, 0x50, 0x43]
  const EXTENDED: seq<byte> := [0x45, 0x58, 0x54, 0x45, 0x4E, 0x44, 0x45, 0x44]

  function NumTracks(img: seq<byte>): byte { Peek(img, 48) }
  function NumSides(img: seq<byte>): byte { Peek(img, 49) }

  // ---------------------------------------------------------------- the format

  /** Bytes of track number k in image order: all sides of track 0, then of 1. */
  function TrackSize(img: seq<byte>, ext: bool, k: nat): nat {
    if ext then Peek(img, 52 + k) * 0x100 else Pair(Peek(img, 51), Peek(img, 50))
  }

  function TrackStart(img: seq<byte>, ext: bool, k: nat): nat {
    if k == 0 then HEADER else TrackStart(img, ext, k - 1) + TrackSize(img, ext, k - 1)
  }

  function NumSectors(img: seq<byte>, start: nat): byte { Peek(img, start + 21) }

  function Info(img: seq<byte>, start: nat, i: nat, field: nat): byte { Peek(img, start + 24 + 8 * i + field) }

  function SectorSize(img: seq<byte>, ext: bool, start: nat, i: nat): nat {
    if ext then Pair(Info(img, start, i, 7), Info(img, start, i, 6)) else 0x80 * Pow2(Peek(img, start + 20))
  }

  function SectorStart(img: seq<byte>, ext: bool, start: nat, i: nat): nat {
    if i == 0 then start + 0x100 else SectorStart(img, ext, start, i - 1) + SectorSize(img, ext, start, i - 1)
  }

  function SectorOf(img: seq<byte>, ext: bool, start: nat, i: nat): Sector {
    Sector(Info(img, start, i, 0), Info(img, start, i, 1), Info(img, start, i, 2), Info(img, start, i, 3),
           Info(img, start, i, 4), Info(img, start, i, 5),
           SectorStart(img, ext, start, i), SectorSize(img, ext, start, i))
  }

  /** Place i of the structure of a track of n sectors. */
  function SlotOf(img: seq<byte>, ext: bool, start: nat, n: nat, i: nat): Sector {
    if i < n then SectorOf(img, ext, start, i) else NoSector()
  }

  function TrackOutcome(img: seq<byte>, ext: bool, k: nat): Parsed {
    var start, size := TrackStart(img, ext, k), TrackSize(img, ext, k);
    var n := NumSectors(img, start);
    if size == 0 then Accepted
    else if !HasMagic(img, start, TRACK_INFO) || start + size > |img| then Rejected
    else if n > MAX_SECTORS || (n > 0 && !ext && Peek(img, start + 20) >= 24) then Undefined
    else if SectorStart(img, ext, start, n) != start + size then Asserted
    else Accepted
  }

  function TrackOf(img: seq<byte>, ext: bool, k: nat): Track {
    var start, size := TrackStart(img, ext, k), TrackSize(img, ext, k);
    if size == 0 then NoTrack() else
    var n := NumSectors(img, start);
    Track(start, size, n, seq(MAX_SECTORS, i requires 0 <= i => SlotOf(img, ext, start, n, i)))
  }

  /** The first k tracks. */
  function TracksOutcome(img: seq<byte>, ext: bool, k: nat): Parsed {
    if k == 0 then Accepted else
    var before := TracksOutcome(img, ext, k - 1);
    if before != Accepted then before else TrackOutcome(img, ext, k - 1)
  }

  function ParseOutcome(img: seq<byte>, ext: bool): Parsed {
    if NumSides(img) > 2 || NumTracks(img) > MAX_TRACKS then Rejected
    else TracksOutcome(img, ext, NumTracks(img) * NumSides(img))
  }

  /** What inserting an image does. */
  function InsertOutcome(img: seq<byte>): Parsed {
    if !(HEADER < |img| <= MAX_DISC_SIZE) then Rejected
    else if HasMagic(img, 0, STANDARD) then ParseOutcome(img, false)
    else if HasMagic(img, 0, EXTENDED) then ParseOutcome(img, true)
    else Rejected
  }

  // ---------------------------------------------------------------- the layout

  lemma {:induction false} SectorsInOrder(img: seq<byte>, ext: bool, start: nat, i: nat, j: nat)
    requires i <= j
    ensures start + 0x100 <= SectorStart(img, ext, start, i) <= SectorStart(img, ext, start, j)
    ensures i < j ==>
      SectorStart(img, ext, start, i) + SectorSize(img, ext, start, i) <= SectorStart(img, ext, start, j)
    decreases j
  {
    if i < j {
      SectorsInOrder(img, ext, start, i, j - 1);
    } else if i > 0 {
      SectorsInOrder(img, ext, start, i - 1, i - 1);
    }
  }

  lemma {:induction false} TracksInOrder(img: seq<byte>, ext: bool, k: nat, l: nat)
    requires k <= l
    ensures HEADER <= TrackStart(img, ext, k) <= TrackStart(img, ext, l)
    ensures k < l ==> TrackStart(img, ext, k) + TrackSize(img, ext, k) <= TrackStart(img, ext, l)
    decreases l
  {
    if k < l {
      TracksInOrder(img, ext, k, l - 1);
    } else if k > 0 {
      TracksInOrder(img, ext, k - 1, k - 1);
    }
  }

  lemma {:induction false} EachTrackAccepted(img: seq<byte>, ext: bool, n: nat, k: nat)
    requires k < n && TracksOutcome(img, ext, n) == Accepted
    ensures TrackOutcome(img, ext, k) == Accepted
  {
    if k < n - 1 { EachTrackAccepted(img, ext, n - 1, k); }
  }

  /** The sectors of an accepted track lie in it, after its information block. */
  lemma SectorsInsideTrack(img: seq<byte>, ext: bool, k: nat, i: nat)
    requires TrackOutcome(img, ext, k) == Accepted && i < TrackOf(img, ext, k).numSectors
    ensures TrackOf(img, ext, k).numSectors <= MAX_SECTORS
    ensures var s := TrackOf(img, ext, k).sectors[i];
            && TrackStart(img, ext, k) + 0x100 <= s.dataOffset
            && s.dataOffset + s.dataSize <= TrackStart(img, ext, k) + TrackSize(img, ext, k) <= |img|
  {
    hide HasMagic, SectorStart, SectorSize, TrackStart, TrackSize, Info, Peek;
    var start := TrackStart(img, ext, k);
    SectorsInOrder(img, ext, start, i, NumSectors(img, start));
  }

  /** Any two different sectors of an accepted image share no byte. */
  lemma SectorsAreDisjoint(img: seq<byte>, ext: bool, n: nat, k: nat, i: nat, l: nat, j: nat)
    requires TracksOutcome(img, ext, n) == Accepted && k < n && l < n && (k, i) != (l, j)
    requires i < TrackOf(img, ext, k).numSectors && j < TrackOf(img, ext, l).numSectors
    ensures TrackOf(img, ext, k).numSectors <= MAX_SECTORS && TrackOf(img, ext, l).numSectors <= MAX_SECTORS
    ensures Apart(TrackOf(img, ext, k).sectors[i], TrackOf(img, ext, l).sectors[j])
  {
    hide HasMagic, SectorStart, SectorSize, TrackStart, TrackSize, Info, Peek, TracksOutcome, TrackOutcome;
    EachTrackAccepted(img, ext, n, k);
    EachTrackAccepted(img, ext, n, l);
    SectorsInsideTrack(img, ext, k, i);
    SectorsInsideTrack(img, ext, l, j);
    if k < l { TracksInOrder(img, ext, k, l); }
    else if l < k { TracksInOrder(img, ext, l, k); }
    else if i < j { SectorsInOrder(img, ext, TrackStart(img, ext, k), i, j); }
    else { SectorsInOrder(img, ext, TrackStart(img, ext, k), j, i); }
  }

  // ---------------------------------------------------------------- parsing

  /** The structure with the first k tracks of the image filled in. */
  ghost predicate Filled(d: Disc, img: seq<byte>, ext: bool, k: nat) {
    && Shaped(d) && d.numTracks == NumTracks(img) && d.numSides == NumSides(img) <= MAX_SIDES
    && forall s, t :: 0 <= s < MAX_SIDES && 0 <= t < MAX_TRACKS ==>
         var l := t * d.numSides + s;
         d.tracks[s][t] == if s < d.numSides && l < k then TrackOf(img, ext, l) else NoTrack()
  }

  /** The sectors of one track. */
  method ParseSectors(img: seq<byte>, ext: bool, start: nat, n: nat) returns (sectors: seq<Sector>, end: nat)
    requires n <= MAX_SECTORS
    ensures |sectors| == MAX_SECTORS && end == SectorStart(img, ext, start, n)
    ensures forall i :: 0 <= i < MAX_SECTORS ==> sectors[i] == SlotOf(img, ext, start, n, i)
  {
    sectors := NoTrack().sectors;
    end := start + 0x100;
    for i := 0 to n
      invariant |sectors| == MAX_SECTORS && end == SectorStart(img, ext, start, i)
      invariant forall j :: 0 <= j < MAX_SECTORS ==> sectors[j] == SlotOf(img, ext, start, i, j)
    {
      var size := SectorSize(img, ext, start, i);
      sectors := sectors[i := Sector(Info(img, start, i, 0), Info(img, start, i, 1), Info(img, start, i, 2),
                                     Info(img, start, i, 3), Info(img, start, i, 4), Info(img, start, i, 5),
                                     end, size)];
      end := end + size;
    }
  }

  /** Track number k, which starts at `start`. */
  method ParseTrack(img: seq<byte>, ext: bool, k: nat, start: nat) returns (o: Parsed, track: Track)
    requires start == TrackStart(img, ext, k) && |img| <= MAX_DISC_SIZE
    ensures o == TrackOutcome(img, ext, k)
    ensures o == Accepted ==> track == TrackOf(img, ext, k) && TrackShaped(track)
  {
    hide HasMagic, SectorStart, SectorSize, SectorOf, TrackStart, TrackSize, Peek;
    track := NoTrack();
    var size := TrackSize(img, ext, k);
    if size == 0 { return Accepted, track; }
    if !HasMagic(img, start, TRACK_INFO) || start + size > |img| { return Rejected, track; }
    var n := NumSectors(img, start);
    if n > MAX_SECTORS || (n > 0 && !ext && Peek(img, start + 20) >= 24) { return Undefined, track; }
    var sectors, end := ParseSectors(img, ext, start, n);
    track := Track(start, size, n, sectors);
    if end != start + size { return Asserted, track; }
    assert track.sectors == TrackOf(img, ext, k).sectors;
    AcceptedIsShaped(img, ext, k);
    return Accepted, track;
  }

  lemma AcceptedIsShaped(img: seq<byte>, ext: bool, k: nat)
    requires TrackOutcome(img, ext, k) == Accepted && |img| <= MAX_DISC_SIZE
    ensures TrackShaped(TrackOf(img, ext, k))
  {
    hide HasMagic, SectorStart, SectorSize, TrackStart, TrackSize, Info, Peek;
    var t := TrackOf(img, ext, k);
    forall i | 0 <= i < MAX_SECTORS ensures t.sectors[i].dataOffset + t.sectors[i].dataSize <= MAX_DISC_SIZE {
      if i < t.numSectors { SectorsInsideTrack(img, ext, k, i); } else { assert t.sectors[i] == NoSector(); }
    }
  }

  /** The image is in the drive, byte for byte, with the layout described above. */
  ghost predicate Inserted(fdd: Drive, img: seq<byte>, ext: bool)
    reads fdd, fdd.data
  {
    && fdd.Valid() && fdd.hasDisc && |img| <= fdd.data.Length && fdd.data[..|img|] == img
    && Filled(fdd.disc, img, ext, NumTracks(img) * NumSides(img))
  }

  method ParseDsk(fdd: Drive, ext: bool, img: seq<byte>) returns (o: Parsed)
    requires fdd.Valid() && !fdd.hasDisc && HEADER < |img| <= MAX_DISC_SIZE
    modifies fdd, fdd.data
    ensures o == ParseOutcome(img, ext)
    ensures fdd.data.Length == MAX_DISC_SIZE
    ensures o == Accepted ==> Inserted(fdd, img, ext)
  {
    hide TrackOutcome, TrackOf, TrackStart, TrackSize;
    if NumSides(img) > 2 || NumTracks(img) > MAX_TRACKS { return Rejected; }
    forall i | 0 <= i < |img| { fdd.data[i] := img[i]; }
    var sides, tracks := NumSides(img), NumTracks(img);
    fdd.disc := fdd.disc.(numSides := sides, numTracks := tracks);
    o := ParseTracks(fdd, ext, img);
    if o == Accepted { fdd.hasDisc := true; }
  }

  method ParseTracks(fdd: Drive, ext: bool, img: seq<byte>) returns (o: Parsed)
    requires |img| <= MAX_DISC_SIZE && Filled(fdd.disc, img, ext, 0) && NumTracks(img) <= MAX_TRACKS
    modifies fdd`disc
    ensures o == TracksOutcome(img, ext, NumTracks(img) * NumSides(img))
    ensures o == Accepted ==> Filled(fdd.disc, img, ext, NumTracks(img) * NumSides(img))
  {
    hide TrackOutcome, TrackOf, TrackSize, Filled, Peek;
    var sides: int, tracks: int := NumSides(img), NumTracks(img);
    var dataOffset := HEADER;
    for t := 0 to tracks
      invariant Filled(fdd.disc, img, ext, t * sides) && dataOffset == TrackStart(img, ext, t * sides)
      invariant TracksOutcome(img, ext, t * sides) == Accepted
    {
      var p;
      p, dataOffset := ParseCylinder(fdd, ext, img, t, dataOffset);
      if p != Accepted { return p; }
      NextCylinder(t, sides);
    }
    return Accepted;
  }

  lemma NextCylinder(t: nat, sides: nat)
    ensures (t + 1) * sides == t * sides + sides
  {
  }

  /** The tracks with one index, a side at a time. */
  method ParseCylinder(fdd: Drive, ext: bool, img: seq<byte>, t: nat, start: nat) returns (o: Parsed, dataOffset: nat)
    requires |img| <= MAX_DISC_SIZE && t < NumTracks(img) <= MAX_TRACKS
    requires Filled(fdd.disc, img, ext, t * NumSides(img)) && start == TrackStart(img, ext, t * NumSides(img))
    requires TracksOutcome(img, ext, t * NumSides(img)) == Accepted
    modifies fdd`disc
    ensures o != Accepted ==> o == TracksOutcome(img, ext, NumTracks(img) * NumSides(img))
    ensures o == Accepted ==>
      var k := t * NumSides(img) + NumSides(img);
      Filled(fdd.disc, img, ext, k) && dataOffset == TrackStart(img, ext, k) && TracksOutcome(img, ext, k) == Accepted
  {
    hide TrackOutcome, TrackOf, TrackSize, Filled, Peek, Placed;
    var sides: int := NumSides(img);
    dataOffset := start;
    for s := 0 to sides
      invariant Filled(fdd.disc, img, ext, t * sides + s) && dataOffset == TrackStart(img, ext, t * sides + s)
      invariant TracksOutcome(img, ext, t * sides + s) == Accepted
    {
      var k := t * sides + s;
      var p, track := ParseTrack(img, ext, k, dataOffset);
      if p != Accepted {
        WithinDisc(s, t, sides, NumTracks(img));
        FirstFailure(img, ext, k + 1, NumTracks(img) * sides);
        return p, dataOffset;
      }
      FilledIsShaped(fdd.disc, img, ext, k);
      Fill(fdd.disc, img, ext, s, t, track);
      fdd.disc := Placed(fdd.disc, s, t, track);
      dataOffset := dataOffset + TrackSize(img, ext, k);
    }
    return Accepted, dataOffset;
  }

  lemma FilledIsShaped(d: Disc, img: seq<byte>, ext: bool, k: nat)
    requires Filled(d, img, ext, k)
    ensures Shaped(d) && d.numSides == NumSides(img) <= MAX_SIDES
  {
  }

  function Placed(d: Disc, s: nat, t: nat, track: Track): Disc
    requires Shaped(d) && s < MAX_SIDES && t < MAX_TRACKS
  {
    d.(tracks := d.tracks[s := d.tracks[s][t := track]])
  }

  lemma Fill(d: Disc, img: seq<byte>, ext: bool, s: nat, t: nat, track: Track)
    requires s < NumSides(img) && t < NumTracks(img) <= MAX_TRACKS && Filled(d, img, ext, t * NumSides(img) + s)
    requires track == TrackOf(img, ext, t * NumSides(img) + s) && TrackShaped(track)
    ensures Filled(Placed(d, s, t, track), img, ext, t * NumSides(img) + s + 1)
  {
    hide TrackOf, Peek;
    var sides := d.numSides;
    assert sides == 1 || sides == 2;
  }

  lemma {:induction false} FirstFailure(img: seq<byte>, ext: bool, k: nat, n: nat)
    requires k <= n && TracksOutcome(img, ext, k) != Accepted
    ensures TracksOutcome(img, ext, n) == TracksOutcome(img, ext, k)
  {
    if k < n { FirstFailure(img, ext, k, n - 1); }
  }

  lemma WithinDisc(s: nat, t: nat, sides: nat, tracks: nat)
    requires s < sides && t < tracks
    ensures t * sides + s + 1 <= tracks * sides
  {
    assert (t + 1) * sides <= tracks * sides;
  }

  /** Inserting an image: an accepted one is in the drive, byte for byte, with the
      layout described above; a rejected one leaves the drive empty. */
  method InsertDsk(fdd: Drive, img: seq<byte>) returns (o: Parsed)
    requires fdd.Valid() && img != []
    modifies fdd, fdd.data
    ensures o == InsertOutcome(img)
    ensures o == Rejected ==> fdd.Valid() && !fdd.hasDisc
    ensures o == Accepted ==> Inserted(fdd, img, HasMagic(img, 0, EXTENDED))
  {
    hide HasMagic, Filled, TracksOutcome, Peek;
    if fdd.hasDisc { fdd.Eject(); }
    if |img| > MAX_DISC_SIZE || |img| <= HEADER { return Rejected; }
    var standard := HasMagic(img, 0, STANDARD);
    var ext := !standard && HasMagic(img, 0, EXTENDED);
    if !standard && !ext { return Rejected; }
    MagicsDiffer(img);
    o := ParseDsk(fdd, ext, img);
    if o == Rejected { fdd.Eject(); }
  }

  lemma MagicsDiffer(img: seq<byte>)
    ensures !(HasMagic(img, 0, STANDARD) && HasMagic(img, 0, EXTENDED))
  {
    assert STANDARD[0] != EXTENDED[0];
  }

  // ---------------------------------------------------------------- transfers

  /** Where a sector of an inserted disc is: its side, its track, its place there. */
  datatype Place = Place(side: nat, track: nat, index: nat)

  predicate OnDisc(d: Disc, p: Place)
    requires Shaped(d)
  {
    p.side < d.numSides && p.side < MAX_SIDES && p.track < d.numTracks && p.index < d.tracks[p.side][p.track].numSectors
  }

  function At(d: Disc, p: Place): (s: Sector)
    requires Shaped(d) && OnDisc(d, p)
    ensures s.dataOffset + s.dataSize <= MAX_DISC_SIZE
  {
    d.tracks[p.side][p.track].sectors[p.index]
  }

  /** Different sectors of a disc that was read from an accepted image are apart. */
  lemma PlacesAreApart(d: Disc, img: seq<byte>, ext: bool, p: Place, q: Place)
    requires Filled(d, img, ext, NumTracks(img) * NumSides(img)) && ParseOutcome(img, ext) == Accepted
    requires OnDisc(d, p) && OnDisc(d, q) && p != q
    ensures Apart(At(d, p), At(d, q))
  {
    hide TrackOf, TracksOutcome, Peek, Apart;
    var sides, tracks := d.numSides, d.numTracks;
    WithinDisc(p.side, p.track, sides, tracks);
    WithinDisc(q.side, q.track, sides, tracks);
    assert sides == 1 || sides == 2;
    var k, l := p.track * sides + p.side, q.track * sides + q.side;
    SectorsAreDisjoint(img, ext, tracks * sides, k, p.index, l, q.index);
  }

  /** On a disc read from an accepted image, a sector written whole and found again
      holds and reads back what was written, both transfers report the end of the
      sector on the last byte only, and no other sector of the disc has changed. */
  method Rewrite(fdd: Drive, ghost img: seq<byte>, ghost ext: bool, side: nat, track: nat, r: byte, bytes: seq<byte>)
    returns (back: seq<byte>, written: seq<Outcome>, read: seq<Outcome>)
    requires fdd.Valid() && fdd.Ready() && ParseOutcome(img, ext) == Accepted
    requires Filled(fdd.disc, img, ext, NumTracks(img) * NumSides(img))
    requires side < fdd.disc.numSides && track < fdd.disc.numTracks
    requires var t := fdd.TrackAt(side, track);
             var i := Find(t, r, 0);
             i < t.numSectors && |bytes| == t.sectors[i].dataSize
    modifies fdd`curSide, fdd`curTrackIndex, fdd`curSectorIndex, fdd`curSectorPos, fdd.data
    ensures fdd.Valid() && fdd.disc == old(fdd.disc) && back == bytes
    ensures written == read == Reports(|bytes|)
    ensures var mine := Place(side, track, Find(fdd.TrackAt(side, track), r, 0));
            && OnDisc(fdd.disc, mine) && fdd.Contents(At(fdd.disc, mine)) == bytes
            && forall p :: OnDisc(fdd.disc, p) && p != mine ==>
                 fdd.Contents(At(fdd.disc, p)) == old(fdd.Contents(At(fdd.disc, p)))
  {
    hide Filled, Find, ParseOutcome, Apart, HasMagic;
    FilledIsShaped(fdd.disc, img, ext, NumTracks(img) * NumSides(img));
    ghost var mine := Place(side, track, Find(fdd.TrackAt(side, track), r, 0));
    forall p | OnDisc(fdd.disc, p) && p != mine ensures Apart(At(fdd.disc, p), At(fdd.disc, mine)) {
      PlacesAreApart(fdd.disc, img, ext, p, mine);
    }
    back, written, read := fdd.RoundTrip(side, track, r, bytes);
  }
}
