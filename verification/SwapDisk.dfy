/** Pages of words and the 512-byte sectors they are written to (readsect and writesect in mm/swap.c). */
module SwapDisk {
  import opened Memory
  import opened Slots

  const PAGE_WORDS: nat := 1024
  const SECTOR_WORDS: nat := 128

  type Frame = s: seq<Word> | |s| == PAGE_WORDS witness seq(PAGE_WORDS, i => 0)
  type Sector = s: seq<Word> | |s| == SECTOR_WORDS witness seq(SECTOR_WORDS, i => 0)

  /** What memset leaves in a page. */
  function ZeroPage(): (r: Frame)
    ensures forall i :: 0 <= i < PAGE_WORDS ==> r[i] == 0
  {
    seq(PAGE_WORDS, i => 0)
  }

  /** The page in the eight sectors from s. */
  function ReadPage(disk: seq<Sector>, s: nat): Frame
    requires s + PAGE_SECTORS <= |disk|
  {
    seq(PAGE_WORDS, i requires 0 <= i < PAGE_WORDS => disk[s + i / SECTOR_WORDS][i % SECTOR_WORDS])
  }

  function Piece(page: Frame, k: nat): Sector
    requires k < PAGE_SECTORS
  {
    page[SECTOR_WORDS * k..SECTOR_WORDS * (k + 1)]
  }

  /** The sectors of a page from the k-th on. */
  function Pieces(page: Frame, k: nat): (r: seq<Sector>)
    requires k <= PAGE_SECTORS
    ensures |r| == PAGE_SECTORS - k && forall j :: 0 <= j < |r| ==> r[j] == Piece(page, k + j)
    decreases PAGE_SECTORS - k
  {
    if k == PAGE_SECTORS then [] else [Piece(page, k)] + Pieces(page, k + 1)
  }

  function WritePage(disk: seq<Sector>, s: nat, page: Frame): (r: seq<Sector>)
    requires s + PAGE_SECTORS <= |disk|
    ensures |r| == |disk|
    ensures forall j :: 0 <= j < |disk| ==> r[j] == if s <= j < s + PAGE_SECTORS then Piece(page, j - s) else disk[j]
  {
    disk[..s] + Pieces(page, 0) + disk[s + PAGE_SECTORS..]
  }

  lemma PieceAt(page: Frame, k: nat, j: nat)
    requires k < PAGE_SECTORS && j < SECTOR_WORDS
    ensures Piece(page, k)[j] == page[SECTOR_WORDS * k + j]
  {
  }

  /** Where a word goes: the words of a page fill the eight sectors in order, and are read so. */
  lemma WordOnDisk(disk: seq<Sector>, s: nat, page: Frame, i: nat)
    requires s + PAGE_SECTORS <= |disk| && i < 1024
    ensures WritePage(disk, s, page)[s + i / 128][i % 128] == page[i]
    ensures ReadPage(disk, s)[i] == disk[s + i / 128][i % 128]
  {
    PieceAt(page, i / 128, i % 128);
  }

  /** A page written out is read back unchanged, and pages in other slots stay as they are. */
  lemma PageRoundTrip(disk: seq<Sector>, s: nat, page: Frame)
    requires s + PAGE_SECTORS <= |disk|
    ensures ReadPage(WritePage(disk, s, page), s) == page
    ensures forall t: nat :: t + PAGE_SECTORS <= |disk| && SectorsApart(s, t) ==>
              ReadPage(WritePage(disk, s, page), t) == ReadPage(disk, t)
  {
    forall i | 0 <= i < PAGE_WORDS ensures ReadPage(WritePage(disk, s, page), s)[i] == page[i] {
      PieceAt(page, i / SECTOR_WORDS, i % SECTOR_WORDS);
    }
    forall t: nat | t + PAGE_SECTORS <= |disk| && SectorsApart(s, t)
      ensures ReadPage(WritePage(disk, s, page), t) == ReadPage(disk, t)
    {
      forall i | 0 <= i < PAGE_WORDS ensures ReadPage(WritePage(disk, s, page), t)[i] == ReadPage(disk, t)[i] {
        assert !(s <= t + i / SECTOR_WORDS < s + PAGE_SECTORS);
      }
    }
  }

  /** readsect: eight sectors into a frame, one at a time. */
  method ReadSectors(disk: array<Sector>, s: nat, ram: array<Frame>, f: nat)
    requires s + PAGE_SECTORS <= disk.Length && f < ram.Length
    modifies ram
    ensures ram[..] == old(ram[..])[f := ReadPage(disk[..], s)]
  {
    var count := 0;
    ghost var page := ReadPage(disk[..], s);
    while count < PAGE_SECTORS
      invariant count <= PAGE_SECTORS && disk[..] == old(disk[..])
      invariant ram[f][..SECTOR_WORDS * count] == page[..SECTOR_WORDS * count]
      invariant forall g :: 0 <= g < ram.Length && g != f ==> ram[g] == old(ram[g])
    {
      ghost var was := ram[f];
      var at := SECTOR_WORDS * count;
      ram[f] := ram[f][..at] + disk[s + count] + ram[f][at + SECTOR_WORDS..];
      forall i | 0 <= i < at + SECTOR_WORDS ensures ram[f][i] == page[i] {
        if i < at {
          assert was[..at][i] == page[..at][i];
        } else {
          assert i / SECTOR_WORDS == count && i % SECTOR_WORDS == i - at;
        }
      }
      count := count + 1;
    }
    assert ram[f] == page;
  }

  /** writesect: a page into eight sectors, one at a time. */
  method WriteSectors(page: Frame, disk: array<Sector>, s: nat)
    requires s + PAGE_SECTORS <= disk.Length
    modifies disk
    ensures disk[..] == WritePage(old(disk[..]), s, page)
  {
    var count := 0;
    while count < PAGE_SECTORS
      invariant count <= PAGE_SECTORS
      invariant forall k :: 0 <= k < count ==> disk[s + k] == Piece(page, k)
      invariant forall j :: 0 <= j < disk.Length && !(s <= j < s + count) ==> disk[j] == old(disk[j])
    {
      disk[s + count] := Piece(page, count);
      count := count + 1;
    }
    forall j | 0 <= j < disk.Length ensures disk[j] == WritePage(old(disk[..]), s, page)[j] {
      if s <= j < s + PAGE_SECTORS {
        assert disk[s + (j - s)] == Piece(page, j - s);
      }
    }
  }
}
