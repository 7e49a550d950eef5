/** The floppy drive: a cursor over a disc structure that says where in one buffer
    the bytes of every sector live. */
module Fdd {
  import opened Words

  const MAX_SIDES: nat := 2
  const MAX_TRACKS: nat := 80
  const MAX_SECTORS: nat := 12
  const MAX_DISC_SIZE: nat := 2 * 80 * 12 * 512

  datatype Outcome = SUCCESS | NOT_READY | NOT_FOUND | END_OF_SECTOR

  datatype Sector = Sector(c: byte, h: byte, r: byte, n: byte, st1: byte, st2: byte, dataOffset: nat, dataSize: nat)
  datatype Track = Track(dataOffset: nat, dataSize: nat, numSectors: nat, sectors: seq<Sector>)
  datatype Disc = Disc(numSides: nat, numTracks: nat, tracks: seq<seq<Track>>)

  function NoSector(): Sector { Sector(0, 0, 0, 0, 0, 0, 0, 0) }
  function NoTrack(): Track { Track(0, 0, 0, seq(MAX_SECTORS, _ => NoSector())) }
  function NoDisc(): Disc { Disc(0, 0, seq(MAX_SIDES, _ => seq(MAX_TRACKS, _ => NoTrack()))) }

  /** The fixed dimensions of the structure. */
  predicate Shaped(d: Disc) {
    && d.numTracks <= MAX_TRACKS && |d.tracks| == MAX_SIDES
    && (forall s :: 0 <= s < MAX_SIDES ==> |d.tracks[s]| == MAX_TRACKS)
    && (forall s, t :: 0 <= s < MAX_SIDES && 0 <= t < MAX_TRACKS ==> TrackShaped(d.tracks[s][t]))
  }

  predicate TrackShaped(t: Track) {
    && t.numSectors <= MAX_SECTORS == |t.sectors|
    && forall i :: 0 <= i < MAX_SECTORS ==> t.sectors[i].dataOffset + t.sectors[i].dataSize <= MAX_DISC_SIZE
  }

  /** The first sector of a track with the given record number, or the number of
      sectors. */
  function Find(t: Track, r: byte, from: nat): (i: nat)
    requires TrackShaped(t) && from <= t.numSectors
    ensures from <= i <= t.numSectors
    ensures i < t.numSectors ==> t.sectors[i].r == r
    ensures forall j :: from <= j < i ==> t.sectors[j].r != r
    decreases t.numSectors - from
  {
    if from == t.numSectors || t.sectors[from].r == r then from else Find(t, r, from + 1)
  }

  class Drive {
    var curSide: nat
    var curTrackIndex: int
    var curSectorIndex: nat
    var curSectorPos: nat
    var hasDisc: bool
    var motorOn: bool
    var disc: Disc
    const data: array<byte>

    ghost predicate Valid()
      reads this, data
    {
      && data.Length == MAX_DISC_SIZE && Shaped(disc)
      && curSide < MAX_SIDES && 0 <= curTrackIndex < MAX_TRACKS && curSectorIndex < MAX_SECTORS
      && (!hasDisc ==> Empty())
    }

    /** What initialising and ejecting leave. */
    ghost predicate Empty()
      reads `disc, data
    {
      disc == NoDisc() && forall i :: 0 <= i < data.Length ==> data[i] == 0
    }

    /** There is nothing on the disc structure. */
    ghost predicate NoSectors()
      requires Shaped(disc)
      reads `disc
    {
      && disc.numSides == 0 && disc.numTracks == 0
      && forall s, t :: 0 <= s < MAX_SIDES && 0 <= t < MAX_TRACKS ==> disc.tracks[s][t].numSectors == 0
    }

    constructor ()
      ensures Valid() && !hasDisc && !motorOn && fresh(data) && NoSectors()
    {
      curSide, curTrackIndex, curSectorIndex, curSectorPos := 0, 0, 0, 0;
      hasDisc, motorOn := false, false;
      disc := NoDisc();
      data := new byte[MAX_DISC_SIZE](_ => 0);
    }

    method Motor(on: bool)
      modifies `motorOn
      ensures motorOn == on
    {
      motorOn := on;
    }

    method Eject()
      requires data.Length == MAX_DISC_SIZE
      modifies this, data
      ensures Valid() && !hasDisc && !motorOn && NoSectors()
      ensures curSide == curTrackIndex == curSectorIndex == curSectorPos == 0
    {
      curSide, curTrackIndex, curSectorIndex, curSectorPos := 0, 0, 0, 0;
      hasDisc, motorOn := false, false;
      disc := NoDisc();
      forall i | 0 <= i < data.Length { data[i] := 0; }
    }

    predicate Ready()
      reads `hasDisc, `motorOn
    {
      hasDisc && motorOn
    }

    /** A negative track number is accepted too, and takes the cursor off the disc
        structure. */
    method SeekTrack(track: int) returns (o: Outcome)
      requires Valid()
      modifies `curTrackIndex
      ensures Valid() == (o == SUCCESS ==> track >= 0)
      ensures o == if Ready() && track < disc.numTracks then SUCCESS else NOT_READY
      ensures curTrackIndex == if o == SUCCESS then track else old(curTrackIndex)
    {
      if hasDisc && motorOn && track < disc.numTracks {
        curTrackIndex := track;
        return SUCCESS;
      }
      return NOT_READY;
    }

    function TrackAt(side: nat, track: nat): (t: Track)
      requires Shaped(disc) && side < MAX_SIDES && track < MAX_TRACKS
      reads `disc
      ensures TrackShaped(t)
    {
      disc.tracks[side][track]
    }

    method SeekSector(side: nat, r: byte) returns (o: Outcome)
      requires Valid() && side < MAX_SIDES
      modifies `curSide, `curSectorIndex, `curSectorPos
      ensures Valid()
      ensures var t := TrackAt(side, curTrackIndex);
              o == if !Ready() then NOT_READY else if Find(t, r, 0) < t.numSectors then SUCCESS else NOT_FOUND
      ensures curSide == if Ready() then side else old(curSide)
      ensures if o == SUCCESS then curSectorIndex == Find(TrackAt(side, curTrackIndex), r, 0) && curSectorPos == 0
              else curSectorIndex == old(curSectorIndex) && curSectorPos == old(curSectorPos)
    {
      if !hasDisc || !motorOn { return NOT_READY; }
      curSide := side;
      var track := TrackAt(side, curTrackIndex);
      for si := 0 to track.numSectors
        invariant Find(track, r, si) == Find(track, r, 0)
        invariant curSectorIndex == old(curSectorIndex) && curSectorPos == old(curSectorPos)
      {
        if track.sectors[si].r == r {
          curSectorIndex := si;
          curSectorPos := 0;
          return SUCCESS;
        }
      }
      return NOT_FOUND;
    }

    /** The sector under the cursor, on the given side. */
    function Current(side: nat): (s: Sector)
      requires Shaped(disc) && side < MAX_SIDES && 0 <= curTrackIndex < MAX_TRACKS && curSectorIndex < MAX_SECTORS
      reads `disc, `curTrackIndex, `curSectorIndex
      ensures s.dataOffset + s.dataSize <= MAX_DISC_SIZE
    {
      TrackAt(side, curTrackIndex).sectors[curSectorIndex]
    }

    /** What a transfer of one byte reports. */
    function Transferred(side: nat): Outcome
      requires Shaped(disc) && side < MAX_SIDES && 0 <= curTrackIndex < MAX_TRACKS && curSectorIndex < MAX_SECTORS
      reads `disc, `curTrackIndex, `curSectorIndex, `curSectorPos, `hasDisc, `motorOn
    {
      if !Ready() then NOT_READY
      else if curSectorPos >= Current(side).dataSize then NOT_FOUND
      else if curSectorPos + 1 < Current(side).dataSize then SUCCESS
      else END_OF_SECTOR
    }

    method Read(side: nat) returns (o: Outcome, out: byte)
      requires Valid() && side < MAX_SIDES
      modifies `curSide, `curSectorPos
      ensures Valid()
      ensures o == old(Transferred(side))
      ensures curSide == if Ready() then side else old(curSide)
      ensures if o in {SUCCESS, END_OF_SECTOR}
              then out == data[Current(side).dataOffset + old(curSectorPos)] && curSectorPos == old(curSectorPos) + 1
              else curSectorPos == old(curSectorPos)
      ensures o == NOT_READY ==> out == 0xFF
    {
      out := 0xFF;
      if hasDisc && motorOn {
        curSide := side;
        var sector := Current(side);
        if curSectorPos < sector.dataSize {
          out := data[sector.dataOffset + curSectorPos];
          curSectorPos := curSectorPos + 1;
          return if curSectorPos < sector.dataSize then SUCCESS else END_OF_SECTOR, out;
        }
        return NOT_FOUND, out;
      }
      return NOT_READY, out;
    }

    method Write(side: nat, v: byte) returns (o: Outcome)
      requires Valid() && side < MAX_SIDES
      modifies `curSide, `curSectorPos, data
      ensures Valid()
      ensures o == old(Transferred(side))
      ensures curSide == if Ready() then side else old(curSide)
      ensures if o in {SUCCESS, END_OF_SECTOR}
              then data[..] == old(data[..])[Current(side).dataOffset + old(curSectorPos) := v]
                   && curSectorPos == old(curSectorPos) + 1
              else data[..] == old(data[..]) && curSectorPos == old(curSectorPos)
    {
      if hasDisc && motorOn {
        curSide := side;
        var sector := Current(side);
        if curSectorPos < sector.dataSize {
          data[sector.dataOffset + curSectorPos] := v;
          curSectorPos := curSectorPos + 1;
          return if curSectorPos < sector.dataSize then SUCCESS else END_OF_SECTOR;
        }
        return NOT_FOUND;
      }
      return NOT_READY;
    }

    // -------------------------------------------------------------- whole sectors

    /** The bytes of a sector. */
    function Contents(s: Sector): (bytes: seq<byte>)
      requires s.dataOffset + s.dataSize <= data.Length
      reads data
      ensures |bytes| == s.dataSize
    {
      data[s.dataOffset..s.dataOffset + s.dataSize]
    }

    /** Writes through the cursor until the end of the sector is reported. */
    method WriteAll(side: nat, bytes: seq<byte>) returns (outcomes: seq<Outcome>)
      requires Valid() && Ready() && side < MAX_SIDES && curSectorPos == 0 && |bytes| == Current(side).dataSize
      modifies `curSide, `curSectorPos, data
      ensures Valid() && Contents(Current(side)) == bytes
      ensures var at := Current(side).dataOffset;
              forall i :: 0 <= i < data.Length && !(at <= i < at + |bytes|) ==> data[i] == old(data[i])
      ensures outcomes == Reports(|bytes|)
    {
      outcomes := [];
      var at := Current(side).dataOffset;
      for k := 0 to |bytes|
        invariant Valid() && curSectorPos == k == |outcomes|
        invariant data[at..at + k] == bytes[..k]
        invariant forall i :: 0 <= i < data.Length && !(at <= i < at + k) ==> data[i] == old(data[i])
        invariant forall j :: 0 <= j < k ==> outcomes[j] == if j + 1 < |bytes| then SUCCESS else END_OF_SECTOR
      {
        ghost var was := data[..];
        var o := Write(side, bytes[k]);
        OneMoreByte(was, data[..], at, bytes, k);
        outcomes := outcomes + [o];
      }
    }

    /** Reads through the cursor until the end of the sector is reported. */
    method ReadAll(side: nat) returns (bytes: seq<byte>, outcomes: seq<Outcome>)
      requires Valid() && Ready() && side < MAX_SIDES && curSectorPos == 0
      modifies `curSide, `curSectorPos
      ensures Valid() && bytes == Contents(Current(side))
      ensures outcomes == Reports(|bytes|)
    {
      outcomes, bytes := [], [];
      var at, size := Current(side).dataOffset, Current(side).dataSize;
      for k := 0 to size
        invariant Valid() && curSectorPos == k == |outcomes| && bytes == data[at..at + k]
        invariant forall j :: 0 <= j < k ==> outcomes[j] == if j + 1 < size then SUCCESS else END_OF_SECTOR
      {
        var o, v := Read(side);
        bytes, outcomes := bytes + [v], outcomes + [o];
      }
    }

    /** What shares no byte with a sector is unchanged if only that sector changed. */
    twostate lemma Elsewhere(mine: Sector)
      requires data.Length == MAX_DISC_SIZE && mine.dataOffset + mine.dataSize <= MAX_DISC_SIZE
      requires forall i :: 0 <= i < data.Length && !(mine.dataOffset <= i < mine.dataOffset + mine.dataSize) ==>
                             data[i] == old(data[i])
      ensures forall s: Sector ::
        s.dataOffset + s.dataSize <= MAX_DISC_SIZE && Apart(s, mine) ==> Contents(s) == old(Contents(s))
    {
      forall s: Sector | s.dataOffset + s.dataSize <= MAX_DISC_SIZE && Apart(s, mine)
        ensures Contents(s) == old(Contents(s))
      {
        forall i | s.dataOffset <= i < s.dataOffset + s.dataSize ensures data[i] == old(data[i]) { }
      }
    }

    /** Seek and write a whole sector, then seek again and read it back: the sector
        holds the bytes, both transfers report the end of the sector on the last byte
        only, and no other sector changes. */
    method RoundTrip(side: nat, track: nat, r: byte, bytes: seq<byte>)
      returns (back: seq<byte>, written: seq<Outcome>, read: seq<Outcome>)
      requires Valid() && Ready() && side < MAX_SIDES && track < disc.numTracks
      requires var t := TrackAt(side, track);
               var i := Find(t, r, 0);
               i < t.numSectors && |bytes| == t.sectors[i].dataSize
      modifies `curSide, `curTrackIndex, `curSectorIndex, `curSectorPos, data
      ensures Valid() && disc == old(disc) && back == bytes
      ensures written == read == Reports(|bytes|)
      ensures var mine := TrackAt(side, track).sectors[Find(TrackAt(side, track), r, 0)];
              && Contents(mine) == bytes
              && forall s: Sector :: s.dataOffset + s.dataSize <= MAX_DISC_SIZE && Apart(s, mine) ==>
                   Contents(s) == old(Contents(s))
    {
      var o := SeekTrack(track);
      o := SeekSector(side, r);
      ghost var mine := Current(side);
      written := WriteAll(side, bytes);
      Elsewhere(mine);
      o := SeekTrack(track);
      o := SeekSector(side, r);
      back, read := ReadAll(side);
    }
  }

  /** What the transfer of a whole sector reports, byte by byte. */
  function Reports(n: nat): (os: seq<Outcome>)
    ensures |os| == n
  {
    seq(n, k => if k + 1 < n then SUCCESS else END_OF_SECTOR)
  }

  /** The two sectors share no byte. */
  predicate Apart(s: Sector, t: Sector) {
    s.dataSize == 0 || t.dataSize == 0
    || s.dataOffset + s.dataSize <= t.dataOffset || t.dataOffset + t.dataSize <= s.dataOffset
  }

  lemma OneMoreByte(was: seq<byte>, now: seq<byte>, at: nat, bytes: seq<byte>, k: nat)
    requires at + k < |was| && k < |bytes| && was[at..at + k] == bytes[..k]
    requires now == was[at + k := bytes[k]]
    ensures now[at..at + k + 1] == bytes[..k + 1]
  {
    assert now[at..at + k] == was[at..at + k];
    assert now[at..at + k + 1] == now[at..at + k] + [now[at + k]];
    assert bytes[..k + 1] == bytes[..k] + [bytes[k]];
  }
}
