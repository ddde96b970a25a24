/** The custom ADR profile of the tracker: sixteen data rates the modem
    cycles through, spread evenly over a user window [min, max], or a
    regional default table. */
module Adr {
  import opened Bytes
  import opened Regions

  const ListSize: int := 16

  /** LoRaWAN data rates are 4-bit values. */
  type DataRate = x: int | 0 <= x < 16

  /** `n` copies of `v`. */
  function Fill(v: byte, n: nat): (r: seq<byte>)
    ensures |r| == n && forall k :: 0 <= k < n ==> r[k] == v
  {
    if n == 0 then [] else Fill(v, n - 1) + [v]
  }

  predicate NonDecreasing(s: seq<byte>)
  {
    forall a, b :: 0 <= a <= b < |s| ==> s[a] <= s[b]
  }

  /** How sixteen slots divide among `width` rates: `num` each, and
      `extra` rates with one slot more. */
  datatype Share = Share(num: nat, extra: nat)

  function ShareOf(width: int): (s: Share)
    requires 0 < width
    ensures s.num == ListSize / width && s.extra == ListSize % width
  {
    Share(ListSize / width, ListSize % width)
  }

  /** The slots of the `i`-th rate: its share, plus one for each of the
      first `extra` rates. */
  function Slots(s: Share, i: int): nat
  {
    s.num + (if i < s.extra then 1 else 0)
  }

  /** The first `i` rate blocks, rate `lo + k` repeated `Slots(s, k)` times. */
  function Blocks(lo: DataRate, s: Share, i: nat): seq<byte>
    requires lo + i <= 16
  {
    if i == 0 then [] else Blocks(lo, s, i - 1) + Fill(lo + i - 1, Slots(s, i - 1))
  }

  /** The profile `custom_lora_adr_compute(lo, hi)` fills in. */
  function AdrSpec(lo: DataRate, hi: DataRate): seq<byte>
    requires lo < hi
  {
    Blocks(lo, ShareOf(hi - lo + 1), hi - lo + 1)
  }

  function Min(a: int, b: int): int { if a <= b then a else b }

  /** The shares add up to the sixteen slots. */
  lemma ShareTotal(width: int)
    requires 0 < width
    ensures width * ShareOf(width).num + ShareOf(width).extra == ListSize
    ensures ShareOf(width).extra < width
  {
  }

  lemma MulSucc(i: int, n: int)
    ensures (i + 1) * n == i * n + n
  {
  }

  lemma {:induction false} BlocksLength(lo: DataRate, s: Share, i: nat)
    requires lo + i <= 16
    ensures |Blocks(lo, s, i)| == i * s.num + Min(i, s.extra)
  {
    if i > 0 {
      BlocksLength(lo, s, i - 1);
      MulSucc(i - 1, s.num);
    }
  }

  /** Sixteen entries. */
  lemma AdrSpecLength(lo: DataRate, hi: DataRate)
    requires lo < hi
    ensures |AdrSpec(lo, hi)| == ListSize
  {
    BlocksLength(lo, ShareOf(hi - lo + 1), hi - lo + 1);
    ShareTotal(hi - lo + 1);
  }

  lemma {:induction false} BlocksSortedInRange(lo: DataRate, s: Share, i: nat)
    requires lo + i <= 16
    ensures NonDecreasing(Blocks(lo, s, i))
    ensures forall k :: 0 <= k < |Blocks(lo, s, i)| ==> lo <= Blocks(lo, s, i)[k] < lo + i
  {
    if i > 0 {
      BlocksSortedInRange(lo, s, i - 1);
    }
  }

  /** The profile is ordered from the slowest rate to the fastest and stays
      inside the window. */
  lemma AdrSpecSortedInWindow(lo: DataRate, hi: DataRate)
    requires lo < hi
    ensures NonDecreasing(AdrSpec(lo, hi))
    ensures forall k :: 0 <= k < |AdrSpec(lo, hi)| ==> lo <= AdrSpec(lo, hi)[k] <= hi
  {
    BlocksSortedInRange(lo, ShareOf(hi - lo + 1), hi - lo + 1);
  }

  /** How often `x` occurs in `s`. */
  function Occurrences(s: seq<byte>, x: byte): nat
  {
    if |s| == 0 then 0 else Occurrences(s[..|s| - 1], x) + (if s[|s| - 1] == x then 1 else 0)
  }

  lemma {:induction false} OccurrencesAppend(a: seq<byte>, b: seq<byte>, x: byte)
    ensures Occurrences(a + b, x) == Occurrences(a, x) + Occurrences(b, x)
    decreases |b|
  {
    if |b| > 0 {
      assert (a + b)[..|a + b| - 1] == a + b[..|b| - 1];
      OccurrencesAppend(a, b[..|b| - 1], x);
    } else {
      assert a + b == a;
    }
  }

  lemma {:induction false} FillCount(v: byte, n: nat, x: byte)
    ensures Occurrences(Fill(v, n), x) == if x == v then n else 0
  {
    if n > 0 {
      assert Fill(v, n)[..n - 1] == Fill(v, n - 1);
      FillCount(v, n - 1, x);
    }
  }

  lemma {:induction false} BlocksCount(lo: DataRate, s: Share, i: nat, x: byte)
    requires lo + i <= 16
    ensures Occurrences(Blocks(lo, s, i), x) == if lo <= x < lo + i then Slots(s, x - lo) else 0
  {
    if i > 0 {
      OccurrencesAppend(Blocks(lo, s, i - 1), Fill(lo + i - 1, Slots(s, i - 1)), x);
      BlocksCount(lo, s, i - 1, x);
      FillCount(lo + i - 1, Slots(s, i - 1), x);
    }
  }

  /** Every rate of the window occurs 16 / (hi - lo + 1) times, the first
      16 % (hi - lo + 1) rates once more, and no other rate occurs. */
  lemma AdrSpecCounts(lo: DataRate, hi: DataRate, x: byte)
    requires lo < hi
    ensures Occurrences(AdrSpec(lo, hi), x) ==
      if lo <= x <= hi then ListSize / (hi - lo + 1) + (if x - lo < ListSize % (hi - lo + 1) then 1 else 0) else 0
  {
    BlocksCount(lo, ShareOf(hi - lo + 1), hi - lo + 1, x);
  }

  /** `custom_lora_adr_compute(min, max, buf)`: for each rate, its equal
      share of slots, then one extra slot while `16 % (max - min + 1)`
      extras remain, tracked by `offset`. */
  method AdrCompute(min: DataRate, max: DataRate, buf: array<byte>)
    requires min < max && buf.Length == ListSize
    modifies buf
    ensures buf[..] == AdrSpec(min, max)
  {
    var temp := max - min + 1;
    var num := ListSize / temp;
    var remain := ListSize % temp;
    ghost var share := ShareOf(temp);
    assert Blocks(min, share, 0) == [];
    hide Blocks, Fill;
    var offset := 0;
    var i := 0;
    ghost var pos := 0;
    while i < temp
      invariant 0 <= i <= temp && 0 <= offset && pos <= ListSize
      invariant pos == i * num + offset
      invariant buf[..pos] == Blocks(min, share, i)
    {
      RowFits(min, share, temp, i);
      MulSucc(i, num);
      WriteShare(buf, i * num + offset, min + i, num);
      ghost var row := buf[..pos + num];
      assert row == Blocks(min, share, i) + Fill(min + i, num);
      NextBlock(min, share, i);
      if ListSize % temp != 0 && i < remain {
        buf[(i + 1) * num + offset] := min + i;
        AppendOne(buf[..pos + num + 1], row, min + i);
        offset := offset + 1;
        pos := pos + num + 1;
        assert buf[..pos] == Blocks(min, share, i + 1);
      } else {
        pos := pos + num;
        assert buf[..pos] == Blocks(min, share, i + 1);
      }
      i := i + 1;
    }
    AdrSpecLength(min, max);
    assert buf[..] == buf[..pos];
  }

  /** The inner loop of `custom_lora_adr_compute`: `n` slots of rate `v`
      from index `at`. */
  method WriteShare(buf: array<byte>, at: nat, v: byte, n: nat)
    requires at + n <= buf.Length
    modifies buf
    ensures buf[..at + n] == old(buf[..at]) + Fill(v, n)
  {
    var j := 0;
    while j < n
      invariant 0 <= j <= n
      invariant buf[..at + j] == old(buf[..at]) + Fill(v, j)
    {
      buf[at + j] := v;
      AppendOne(buf[..at + j + 1], buf[..at + j], v);
      j := j + 1;
    }
  }

  /** The next block: the share of rate `lo + i`, then its extra slot. */
  lemma NextBlock(lo: DataRate, s: Share, i: nat)
    requires lo + i + 1 <= 16
    ensures i < s.extra ==> Blocks(lo, s, i + 1) == (Blocks(lo, s, i) + Fill(lo + i, s.num)) + [lo + i]
    ensures i >= s.extra ==> Blocks(lo, s, i + 1) == Blocks(lo, s, i) + Fill(lo + i, s.num)
  {
    assert Blocks(lo, s, i + 1) == Blocks(lo, s, i) + Fill(lo + i, Slots(s, i));
    if i < s.extra {
      assert Fill(lo + i, s.num + 1) == Fill(lo + i, s.num) + [lo + i];
    }
  }

  lemma AppendOne(whole: seq<byte>, front: seq<byte>, v: byte)
    requires |whole| == |front| + 1 && whole[..|front|] == front && whole[|front|] == v
    ensures whole == front + [v]
  {
  }

  /** Row `i` of the profile ends inside the sixteen slots. */
  lemma RowFits(lo: DataRate, s: Share, width: nat, i: nat)
    requires i < width && lo + width <= 16 && 0 < width && s == ShareOf(width)
    ensures |Blocks(lo, s, i)| + Slots(s, i) <= ListSize
  {
    ShareTotal(width);
    BlocksLength(lo, s, i);
    BlocksLength(lo, s, width);
    BlocksGrow(lo, s, i + 1, width);
  }

  lemma {:induction false} BlocksGrow(lo: DataRate, s: Share, i: nat, j: nat)
    requires i <= j && lo + j <= 16
    ensures |Blocks(lo, s, i)| <= |Blocks(lo, s, j)|
    decreases j - i
  {
    if i < j {
      BlocksGrow(lo, s, i + 1, j);
    }
  }

  // ---------------------------------------------------------------------
  // Selection of the profile on join
  // ---------------------------------------------------------------------

  const Eu868Default: seq<byte> := [0, 0, 0, 1, 1, 1, 2, 2, 2, 3, 3, 3, 4, 4, 5, 5]
  const Us915Default: seq<byte> := [1, 1, 1, 1, 1, 1, 2, 2, 2, 2, 2, 3, 3, 3, 3, 3]
  const Au915Default: seq<byte> := [3, 3, 3, 3, 3, 3, 4, 4, 4, 4, 4, 5, 5, 5, 5, 5]
  const As923Default: seq<byte> := [3, 3, 3, 3, 3, 3, 4, 4, 4, 4, 4, 5, 5, 5, 5, 5]

  /** The default table of each supported region; KR920, IN865 and RU864
      share the EU868 table. */
  function DefaultList(r: ModemRegion): (d: Option<seq<byte>>)
    ensures d.None? <==> r == OtherRegion
    ensures d.Some? ==> |d.value| == ListSize
  {
    match r
    case EU868 => Some(Eu868Default)
    case KR920 => Some(Eu868Default)
    case IN865 => Some(Eu868Default)
    case RU864 => Some(Eu868Default)
    case US915 => Some(Us915Default)
    case AU915 => Some(Au915Default)
    case OtherRegion => None
    case _ => Some(As923Default)
  }

  lemma FillSmall(v: byte)
    ensures Fill(v, 2) == [v, v] && Fill(v, 3) == [v, v, v]
    ensures Fill(v, 5) == [v, v, v, v, v] && Fill(v, 6) == [v, v, v, v, v, v]
  {
    assert Fill(v, 1) == [v];
    assert Fill(v, 4) == [v, v, v, v];
  }

  /** The EU868 table (also KR920, IN865, RU864) spreads DR0..DR5. */
  lemma Eu868DefaultIsSpread()
    ensures Eu868Default == AdrSpec(0, 5)
  {
    var s := Share(2, 4);
    FillSmall(0); FillSmall(1); FillSmall(2); FillSmall(3); FillSmall(4); FillSmall(5);
    assert Blocks(0, s, 1) == [0, 0, 0];
    assert Blocks(0, s, 2) == [0, 0, 0] + [1, 1, 1];
    assert Blocks(0, s, 3) == [0, 0, 0, 1, 1, 1] + [2, 2, 2];
    assert Blocks(0, s, 4) == [0, 0, 0, 1, 1, 1, 2, 2, 2] + [3, 3, 3];
    assert Blocks(0, s, 5) == [0, 0, 0, 1, 1, 1, 2, 2, 2, 3, 3, 3] + [4, 4];
    assert Blocks(0, s, 6) == [0, 0, 0, 1, 1, 1, 2, 2, 2, 3, 3, 3, 4, 4] + [5, 5];
  }

  /** The US915 table spreads DR1..DR3. */
  lemma Us915DefaultIsSpread()
    ensures Us915Default == AdrSpec(1, 3)
  {
    var s := Share(5, 1);
    FillSmall(1); FillSmall(2); FillSmall(3);
    assert Blocks(1, s, 1) == [1, 1, 1, 1, 1, 1];
    assert Blocks(1, s, 2) == [1, 1, 1, 1, 1, 1] + [2, 2, 2, 2, 2];
    assert Blocks(1, s, 3) == [1, 1, 1, 1, 1, 1, 2, 2, 2, 2, 2] + [3, 3, 3, 3, 3];
  }

  /** The AU915 and AS923 tables spread DR3..DR5. */
  lemma Au915DefaultIsSpread()
    ensures Au915Default == AdrSpec(3, 5) && As923Default == AdrSpec(3, 5)
  {
    var s := Share(5, 1);
    FillSmall(3); FillSmall(4); FillSmall(5);
    assert Blocks(3, s, 1) == [3, 3, 3, 3, 3, 3];
    assert Blocks(3, s, 2) == [3, 3, 3, 3, 3, 3] + [4, 4, 4, 4, 4];
    assert Blocks(3, s, 3) == [3, 3, 3, 3, 3, 3, 4, 4, 4, 4, 4] + [5, 5, 5, 5, 5];
  }

  /** The regional window `LORAWAN_<region>_DR_MIN`..`_DR_MAX`. */
  datatype DrWindow = DrWindow(lo: DataRate, hi: DataRate)

  /** The list `on_modem_network_joined` leaves in `adr_custom_list_region`:
      unchanged while the user ADR is on or the region is unsupported; the
      user window when it fits the region (all one rate if min == max, the
      default if min > max); the default otherwise. */
  function SelectedList(region: ModemRegion, adrUserEnable: bool, drMin: DataRate, drMax: DataRate,
                        window: DrWindow, current: seq<byte>): (r: seq<byte>)
    requires |current| == ListSize
    ensures |r| == ListSize
  {
    if adrUserEnable || region == OtherRegion then current
    else
      var d := DefaultList(region).value;
      if drMin >= window.lo && drMax <= window.hi then
        if drMin == drMax then Fill(drMin, ListSize)
        else if drMin > drMax then d
        else (AdrSpecLength(drMin, drMax); AdrSpec(drMin, drMax))
      else d
  }

  /** Whatever is chosen for a supported region is ordered slow to fast,
      and a window the region accepts is never left. */
  lemma SelectedListSorted(region: ModemRegion, drMin: DataRate, drMax: DataRate, window: DrWindow, current: seq<byte>)
    requires |current| == ListSize && region != OtherRegion
    ensures NonDecreasing(SelectedList(region, false, drMin, drMax, window, current))
    ensures window.lo <= drMin <= drMax <= window.hi ==>
      forall k :: 0 <= k < ListSize ==> drMin <= SelectedList(region, false, drMin, drMax, window, current)[k] <= drMax
  {
    Eu868DefaultIsSpread();
    Us915DefaultIsSpread();
    Au915DefaultIsSpread();
    AdrSpecSortedInWindow(0, 5);
    AdrSpecSortedInWindow(1, 3);
    AdrSpecSortedInWindow(3, 5);
    if drMin < drMax {
      AdrSpecSortedInWindow(drMin, drMax);
    }
  }

  /** The ADR step of `on_modem_network_joined`, writing the profile array. */
  method SelectAdrProfile(list: array<byte>, region: ModemRegion, adrUserEnable: bool,
                          drMin: DataRate, drMax: DataRate, window: DrWindow)
    requires list.Length == ListSize
    modifies list
    ensures list[..] == SelectedList(region, adrUserEnable, drMin, drMax, window, old(list[..]))
  {
    if adrUserEnable || region == OtherRegion {
      return;
    }
    var d := DefaultList(region).value;
    if drMin >= window.lo && drMax <= window.hi {
      if drMin == drMax {
        forall k | 0 <= k < ListSize {
          list[k] := drMin;
        }
      } else if drMin > drMax {
        forall k | 0 <= k < ListSize {
          list[k] := d[k];
        }
      } else {
        AdrCompute(drMin, drMax, list);
      }
    } else {
      forall k | 0 <= k < ListSize {
        list[k] := d[k];
      }
    }
  }
}
