// The encoding of page-table entries: virtual page number and address-space
// identifier in entryHI, and the flash block a page lives in.
module PageBits {

  const MAXPAGES: int := 32
  const UPROCMAX: int := 8
  const LASTPAGEMASK: int := 0x3FFFF

  /** One page of one user process: entry `index` of the private table of `asid`. */
  datatype Page = Page(asid: int, index: int)

  predicate IsPage(p: Page) {
    1 <= p.asid <= UPROCMAX && 0 <= p.index < MAXPAGES
  }

  function VpnOf(index: int): int {
    if index == 31 then 0xBFFFF else 0x80000 + index
  }

  /** (vpn << VPNSHIFT) | (asid << ASIDSHIFT); the two fields do not overlap. */
  function HiFor(vpn: int, asid: int): int {
    vpn * 4096 + asid * 64
  }

  function EntryHi(p: Page): int {
    HiFor(VpnOf(p.index), p.asid)
  }

  /** The virtual page numbers a user process can name: segments 2 and 3. */
  predicate UserVpn(vpn: int) {
    0x80000 <= vpn < 0x100000
  }

  /** Segment 2 is the one the page tables are built for. */
  predicate Segment2(vpn: int) {
    0x80000 <= vpn < 0xC0000
  }

  /** The table entry whose page number agrees with `vpn` below the two segment bits, or -1. */
  function PageFor(vpn: int): int {
    var low := vpn % 0x40000;
    if low < MAXPAGES - 1 then low else if low == LASTPAGEMASK then MAXPAGES - 1 else -1
  }

  /** (entryHI & 0x3FFFF000) >> 12: the page number below the two segment bits. */
  function GetVpn(hi: int): int {
    (hi / 4096) % 0x40000
  }

  /** (entryHI & 0xFC0) >> 6 */
  function GetAsid(hi: int): int {
    (hi / 64) % 64
  }

  /** Block number on the process's flash device. */
  function PageNum(hi: int): int {
    if GetVpn(hi) == LASTPAGEMASK then MAXPAGES - 1 else GetVpn(hi)
  }

  /** Decoding an entryHI gives back the page it was built for, index 31 included. */
  lemma PageNumRoundTrip(p: Page)
    requires IsPage(p)
    ensures PageNum(EntryHi(p)) == p.index && GetAsid(EntryHi(p)) == p.asid
    ensures 0 <= EntryHi(p) < 0x1_0000_0000
  {
    assert EntryHi(p) / 4096 == VpnOf(p.index);
    assert EntryHi(p) / 64 == VpnOf(p.index) * 64 + p.asid;
  }

  /** The table search compares page numbers only; within one table they are distinct. */
  lemma VpnIdentifiesIndex(p: Page, q: Page)
    requires IsPage(p) && IsPage(q)
    ensures GetVpn(EntryHi(p)) == GetVpn(EntryHi(q)) <==> p.index == q.index
    ensures EntryHi(p) == EntryHi(q) <==> p == q
  {
    PageNumRoundTrip(p);
    PageNumRoundTrip(q);
  }

  /** A table search for `vpn` finds entry `i` exactly when `i` is PageFor(vpn); two addresses name each page. */
  lemma SearchFinds(vpn: int, asid: int, i: int)
    requires UserVpn(vpn) && IsPage(Page(asid, i))
    ensures GetVpn(HiFor(vpn, asid)) == GetVpn(EntryHi(Page(asid, i))) <==> PageFor(vpn) == i
    ensures PageFor(vpn) == i <==> vpn == VpnOf(i) || vpn == VpnOf(i) + 0x40000
    ensures Segment2(VpnOf(i)) && !Segment2(VpnOf(i) + 0x40000)
  {
    assert HiFor(vpn, asid) / 4096 == vpn;
    assert EntryHi(Page(asid, i)) / 4096 == VpnOf(i);
  }

  /** entryHI of a user address: which page's entry it is equal to, if any. */
  lemma HiIdentifies(vpn: int, asid: int, p: Page)
    requires 0 <= vpn < 0x100000 && 1 <= asid <= UPROCMAX && IsPage(p)
    ensures HiFor(vpn, asid) == EntryHi(p) <==> asid == p.asid && vpn == VpnOf(p.index)
  {
  }

  /** An entryHI that a TLB lookup for a user address can match. */
  predicate UserHi(hi: int) {
    UserVpn(hi / 4096) && 1 <= GetAsid(hi) <= UPROCMAX && hi == HiFor(hi / 4096, GetAsid(hi))
  }

  /** The page a TLB entry with this entryHI is for, if it is for one. */
  function PageOfHi(hi: int): Page {
    Page(GetAsid(hi), PageNum(hi))
  }

  lemma UserHiFor(vpn: int, asid: int)
    requires UserVpn(vpn) && 1 <= asid <= UPROCMAX
    ensures UserHi(HiFor(vpn, asid)) && GetAsid(HiFor(vpn, asid)) == asid && HiFor(vpn, asid) / 4096 == vpn
  {
    assert HiFor(vpn, asid) / 4096 == vpn;
    assert HiFor(vpn, asid) / 64 == vpn * 64 + asid;
  }

  // ---- The same operations on 32-bit words ------------------------------------------

  function HiWord(vpn: bv32, asid: bv32): bv32 {
    (vpn << 12) | (asid << 6)
  }

  /** The arithmetic used above is what the shifts and masks of the source compute. */
  lemma WordsAgree(vpn: bv32, asid: bv32)
    requires vpn < 0x100000 && asid < 64
    ensures HiWord(vpn, asid) == vpn * 4096 + asid * 64
    ensures (HiWord(vpn, asid) & 0x3FFFF000) >> 12 == (HiWord(vpn, asid) / 4096) % 0x40000
    ensures (HiWord(vpn, asid) & 0xFC0) >> 6 == (HiWord(vpn, asid) / 64) % 64
  {
  }

  // ---- entryLO ---------------------------------------------------------------------------

  const VALIDON: bv32 := 0x200
  const DIRTYON: bv32 := 0x400

  function PfnOf(word: bv32): bv32 {
    word >> 12
  }

  /** The pool's first frame starts at this address, FRAMEPOOLSTART. */
  const FRAMEPOOLSTART: bv32 := 0x20030000

  function FrameAddress(frame: bv32): bv32 {
    FRAMEPOOLSTART + frame * 4096
  }

  /** &= ~VALIDON clears the valid bit and nothing else. */
  lemma InvalidWord(word: bv32)
    ensures PfnOf(word & !VALIDON) == PfnOf(word) && (word & !VALIDON) & VALIDON == 0
  {
  }

  /** frameAddr | VALIDON | DIRTYON has the frame's number and is valid. */
  lemma FrameWord(frame: bv32)
    requires frame < 16
    ensures var word := FrameAddress(frame) | VALIDON | DIRTYON;
            PfnOf(word) == 0x20030 + frame && word & VALIDON == VALIDON
  {
  }

  lemma FreshWord()
    ensures PfnOf(DIRTYON) == 0 && DIRTYON & VALIDON == 0
  {
  }

  /** Numbers of pool frames as integers. */
  lemma FrameNumber(frame: bv32)
    requires frame < 16
    ensures (0x20030 + frame) as int == 0x20030 + frame as int
  {
  }
}
