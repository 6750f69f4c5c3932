/** The block of memory that survives a reset (src/fanpico.c). How the compiler lays the fields out as
    bytes does not matter, so the layout is a parameter. */
module PersistentMemory {
  import opened Crc32

  const MEMORY_ID: nat := 0x42c0ffee
  const MEMORY_LEN: nat := 120

  const WRAP64: nat := 0x1_0000_0000_0000_0000
  const WRAP32: nat := 0x1_0000_0000

  /** Everything before the checksum. */
  datatype Fields = Fields(id: nat, len: nat, seconds: int, nanoseconds: int, uptime: nat, prevUptime: nat,
                           totalUptime: nat, warmstart: nat, timezone: string)

  datatype Block = Block(f: Fields, crc: bv32)

  type Layout = Fields -> seq<bv8>

  function Checksum(layout: Layout, f: Fields): bv32 { Crc(layout(f), 0) }

  function Sealed(layout: Layout, f: Fields): Block { Block(f, Checksum(layout, f)) }

  predicate Labelled(f: Fields) { f.id == MEMORY_ID && f.len == MEMORY_LEN }

  /** The test that decides between a warm and a cold start. */
  predicate Accepted(layout: Layout, b: Block) {
    Labelled(b.f) && b.crc == Checksum(layout, b.f)
  }

  const COLD: Fields := Fields(MEMORY_ID, MEMORY_LEN, 0, 0, 0, 0, 0, 0, "")

  function Warm(f: Fields): Fields {
    var g := if f.uptime != 0 then f.(prevUptime := f.uptime, totalUptime := (f.totalUptime + f.uptime) % WRAP64) else f;
    g.(warmstart := (g.warmstart + 1) % WRAP32)
  }

  /** What a boot makes of any memory content. */
  function Booted(layout: Layout, b: Block): Block {
    Sealed(layout, if Accepted(layout, b) then Warm(b.f) else COLD)
  }

  /** Identifier, length and checksum are right. */
  predicate WarmStart(b: Block, layout: Layout) {
    b.f.id == 0x42c0ffee && b.f.len == 120 && b.crc == Crc(layout(b.f), 0)
  }

  /** A warm start moves a saved uptime, counts the reset and keeps the rest. */
  predicate Restarted(f: Fields, g: Fields) {
    && (f.uptime != 0 ==> g.prevUptime == f.uptime && g.totalUptime == (f.totalUptime + f.uptime) % WRAP64)
    && (f.uptime == 0 ==> g.prevUptime == f.prevUptime && g.totalUptime == f.totalUptime)
    && g.warmstart == (f.warmstart + 1) % WRAP32
    && g.id == f.id && g.len == f.len && g.uptime == f.uptime
    && g.seconds == f.seconds && g.nanoseconds == f.nanoseconds && g.timezone == f.timezone
  }

  predicate Cleared(g: Fields) {
    && g.id == 0x42c0ffee && g.len == 120 && g.timezone == ""
    && g.prevUptime == g.totalUptime == g.warmstart == g.uptime == 0 && g.seconds == g.nanoseconds == 0
  }

  lemma WarmRestarts(f: Fields)
    ensures Restarted(f, Warm(f))
  {
  }

  class Memory {
    const layout: Layout
    var id: nat
    var len: nat
    var seconds: int
    var nanoseconds: int
    var uptime: nat
    var prevUptime: nat
    var totalUptime: nat
    var warmstart: nat
    var timezone: string
    var crc32: bv32

    function Contents(): Block
      reads this
    {
      Block(Fields(id, len, seconds, nanoseconds, uptime, prevUptime, totalUptime, warmstart, timezone), crc32)
    }

    /** `update_persistent_memory_crc`. */
    method UpdateCrc()
      modifies this`crc32
      ensures Contents() == Sealed(layout, old(Contents()).f)
    {
      crc32 := Xcrc32(layout(Contents().f), 0);
    }

    /** `init_persistent_memory`, on whatever the memory holds. */
    method Init()
      modifies this
      ensures WarmStart(old(Contents()), layout) ==> Restarted(old(Contents()).f, Contents().f)
      ensures !WarmStart(old(Contents()), layout) ==> Cleared(Contents().f)
      ensures Contents().crc == Crc(layout(Contents().f), 0)
      ensures Contents() == Booted(layout, old(Contents())) && Accepted(layout, Contents())
    {
      WarmRestarts(Contents().f);
      if id == MEMORY_ID && len == MEMORY_LEN {
        var crc := Xcrc32(layout(Contents().f), 0);
        if crc == crc32 {
          CountReset();
          UpdateCrc();
          return;
        }
      }
      Clear();
      UpdateCrc();
    }

    /** The warm start. */
    method CountReset()
      modifies this
      ensures Contents().f == Warm(old(Contents()).f)
      ensures Restarted(old(Contents()).f, Contents().f)
    {
      if uptime != 0 {
        prevUptime := uptime;
        totalUptime := (totalUptime + uptime) % WRAP64;
      }
      warmstart := (warmstart + 1) % WRAP32;
    }

    /** The cold start. */
    method Clear()
      modifies this
      ensures Contents().f == COLD && Cleared(Contents().f)
    {
      seconds, nanoseconds, uptime, prevUptime, totalUptime, warmstart, timezone := 0, 0, 0, 0, 0, 0, "";
      id, len := MEMORY_ID, MEMORY_LEN;
    }

    /** `update_persistent_memory`; `locked` and `clock` tell whether the mutex was free, and the time if
        the clock was running. */
    method Update(locked: bool, running: bool, sec: int, nsec: int, sinceBoot: nat)
      requires Accepted(layout, Contents())
      modifies this
      ensures Accepted(layout, Contents())
      ensures Contents().f == Do(old(Contents()).f, if !locked then Skip else Uptime(sinceBoot, running, sec, nsec))
      ensures uptime == if locked then sinceBoot else old(uptime)
      ensures seconds == if locked && running then sec else old(seconds)
      ensures nanoseconds == if locked && running then nsec else old(nanoseconds)
      ensures prevUptime == old(prevUptime) && totalUptime == old(totalUptime) && warmstart == old(warmstart)
      ensures id == old(id) && len == old(len) && timezone == old(timezone)
    {
      if locked {
        if running {
          seconds, nanoseconds := sec, nsec;
        }
        uptime := sinceBoot;
        UpdateCrc();
      }
    }

    /** `update_persistent_memory_tz`; `zone` is the string cut to the field. */
    method UpdateTz(locked: bool, zone: string)
      requires Accepted(layout, Contents())
      modifies this
      ensures Accepted(layout, Contents())
      ensures Contents().f == Do(old(Contents()).f, if !locked then Skip else Zone(zone))
      ensures timezone == if locked then zone else old(timezone)
      ensures Contents().f.(timezone := "") == old(Contents()).f.(timezone := "")
    {
      if locked {
        timezone := zone;
        UpdateCrc();
      }
    }
  }

  /** What is done to the block between two boots. */
  datatype Action = Skip | Uptime(us: nat, running: bool, sec: int, nsec: int) | Zone(zone: string)

  function Do(f: Fields, a: Action): Fields {
    match a
    case Skip => f
    case Uptime(us, running, sec, nsec) =>
      if running then f.(uptime := us, seconds := sec, nanoseconds := nsec) else f.(uptime := us)
    case Zone(zone) => f.(timezone := zone)
  }

  // --------------------------------------------------------------------------------------------
  // Damage

  /** Damage within four neighbouring bytes anywhere in the checked part is noticed: the next boot is a
      cold one. So is damage of the checksum itself. */
  lemma DamageIsNoticed(layout: Layout, b: Block, d: Block, head: seq<bv8>, x: seq<bv8>, y: seq<bv8>, tail: seq<bv8>)
    requires Accepted(layout, b)
    requires || (d.crc == b.crc && layout(b.f) == head + x + tail && layout(d.f) == head + y + tail
                 && |x| == |y| <= 4 && x != y)
             || (d.f == b.f && d.crc != b.crc)
    ensures Booted(layout, d) == Sealed(layout, COLD)
  {
    if d.crc == b.crc { BurstDetected(0, head, x, y, tail); }
  }

  // --------------------------------------------------------------------------------------------
  // Uptime over boots

  function DoAll(f: Fields, actions: seq<Action>): Fields {
    if actions == [] then f else Do(DoAll(f, actions[..|actions| - 1]), actions[|actions| - 1])
  }

  /** Memory after the given boots, each with what was done in it, and one more boot. */
  function AfterBoots(layout: Layout, boots: seq<seq<Action>>): Block {
    if boots == [] then Sealed(layout, COLD)
    else Booted(layout, Sealed(layout, DoAll(AfterBoots(layout, boots[..|boots| - 1]).f, boots[|boots| - 1])))
  }

  /** The uptime last saved in a boot, 0 if none was. */
  function SavedUptime(actions: seq<Action>): nat {
    if actions == [] then 0
    else if actions[|actions| - 1].Uptime? then actions[|actions| - 1].us
    else SavedUptime(actions[..|actions| - 1])
  }

  predicate Saves(actions: seq<Action>) { exists k :: 0 <= k < |actions| && actions[k].Uptime? }

  function TotalSaved(boots: seq<seq<Action>>): nat {
    if boots == [] then 0 else TotalSaved(boots[..|boots| - 1]) + SavedUptime(boots[|boots| - 1])
  }

  /** The uptime still in the block when the boots are over: of the last one that saved any. */
  function Left(boots: seq<seq<Action>>): nat {
    if boots == [] then 0
    else if Saves(boots[|boots| - 1]) then SavedUptime(boots[|boots| - 1])
    else Left(boots[..|boots| - 1])
  }

  /** Uptime counted again by boots that saved none of their own. */
  function Recounted(boots: seq<seq<Action>>): nat {
    if boots == [] then 0
    else
      var front := boots[..|boots| - 1];
      Recounted(front) + if Saves(boots[|boots| - 1]) then 0 else Left(front)
  }

  lemma {:induction false} DoAllKeeps(f: Fields, actions: seq<Action>)
    ensures var g := DoAll(f, actions);
            && g.id == f.id && g.len == f.len && g.totalUptime == f.totalUptime && g.warmstart == f.warmstart
            && g.uptime == if Saves(actions) then SavedUptime(actions) else f.uptime
    ensures !Saves(actions) ==> SavedUptime(actions) == 0
  {
    if actions != [] {
      var front, end := actions[..|actions| - 1], actions[|actions| - 1];
      DoAllKeeps(f, front);
      assert Saves(actions) <==> Saves(front) || end.Uptime?;
    }
  }

  /** Numbers of the block after some boots. */
  ghost predicate Accounts(f: Fields, boots: seq<seq<Action>>) {
    && Labelled(f)
    && f.warmstart == |boots| % WRAP32
    && f.uptime == Left(boots)
    && f.totalUptime == (TotalSaved(boots) + Recounted(boots)) % WRAP64
  }

  lemma WarmAccounts(f: Fields, boots: seq<seq<Action>>)
    requires boots != [] && Accounts(f, boots[..|boots| - 1])
    ensures Accounts(Warm(DoAll(f, boots[|boots| - 1])), boots)
  {
    var front, end := boots[..|boots| - 1], boots[|boots| - 1];
    DoAllKeeps(f, end);
    WrapAdd(TotalSaved(front) + Recounted(front), Left(boots), WRAP64);
    WrapAdd(|front|, 1, WRAP32);
  }

  /** The block after any number of boots: valid, counting the resets, and holding the sum of the saved
      uptimes plus what was counted again. */
  lemma {:induction false} TotalUptime(layout: Layout, boots: seq<seq<Action>>)
    ensures Accepted(layout, AfterBoots(layout, boots)) && Accounts(AfterBoots(layout, boots).f, boots)
  {
    if boots != [] {
      TotalUptime(layout, boots[..|boots| - 1]);
      var f := AfterBoots(layout, boots[..|boots| - 1]).f;
      DoAllKeeps(f, boots[|boots| - 1]);
      WarmAccounts(f, boots);
    }
  }

  lemma WrapAdd(a: nat, b: nat, m: nat)
    requires m > 0
    ensures (a % m + b) % m == (a + b) % m
  {
    var x := a % m + b;
    assert a + b == m * (a / m) + x == m * (a / m + x / m) + x % m;
    Remainder(a + b, m, a / m + x / m, x % m);
  }

  lemma Remainder(y: nat, m: nat, q: nat, r: nat)
    requires m > 0 && y == m * q + r && r < m
    ensures y % m == r
  {
    var d := q - y / m;
    assert m * d == y % m - r;
    if d >= 1 { AtLeast(m, d); } else if d <= -1 { AtLeast(m, -d); }
  }

  lemma AtLeast(m: nat, d: nat)
    requires d >= 1
    ensures m * d >= m
  {
  }

  predicate SavesOrNothing(boots: seq<seq<Action>>, k: nat)
    requires k < |boots|
  {
    Saves(boots[k]) || Left(boots[..k]) == 0
  }

  lemma {:induction false} RecountedIff(boots: seq<seq<Action>>)
    ensures Recounted(boots) == 0 <==> forall k :: 0 <= k < |boots| ==> SavesOrNothing(boots, k)
  {
    if boots != [] {
      var n := |boots| - 1;
      var front := boots[..n];
      RecountedIff(front);
      forall k | 0 <= k < n ensures SavesOrNothing(front, k) == SavesOrNothing(boots, k) {
        assert front[..k] == boots[..k];
      }
      assert SavesOrNothing(boots, n) <==> Saves(boots[n]) || Left(front) == 0;
    }
  }

  lemma Unwrapped(v: nat, m: nat)
    requires v < m
    ensures v % m == v
  {
    Remainder(v, m, 0, v);
  }

  lemma AccountsExactly(f: Fields, boots: seq<seq<Action>>)
    requires Accounts(f, boots) && TotalSaved(boots) + Recounted(boots) < WRAP64
    ensures f.totalUptime == TotalSaved(boots) <==> Recounted(boots) == 0
  {
    Unwrapped(TotalSaved(boots) + Recounted(boots), WRAP64);
  }

  /** A boot that ends before it saved its uptime leaves the older one to be counted again: the total is
      the sum of the saved uptimes exactly when no boot did that with an uptime in the block. */
  lemma TotalIsExactIff(layout: Layout, boots: seq<seq<Action>>)
    requires TotalSaved(boots) + Recounted(boots) < WRAP64
    ensures AfterBoots(layout, boots).f.totalUptime == TotalSaved(boots) <==>
              forall k :: 0 <= k < |boots| ==> SavesOrNothing(boots, k)
  {
    TotalUptime(layout, boots);
    AccountsExactly(AfterBoots(layout, boots).f, boots);
    RecountedIff(boots);
  }

  /** Two resets in a row: the 5 microseconds of the first boot are counted twice. */
  lemma ResetTwiceCountsTwice(layout: Layout)
    ensures var boots := [[Uptime(5, false, 0, 0)], []];
            TotalSaved(boots) == 5 && AfterBoots(layout, boots).f.totalUptime == 10
  {
    var save := [Uptime(5, false, 0, 0)];
    var boots := [save, []];
    assert save[0].Uptime?;
    assert boots[..1] == [save] && [save][..0] == [];
    OneBoot(save);
    TwoBoots([save], []);
    TotalUptime(layout, boots);
    Unwrapped(10, WRAP64);
  }

  lemma OneBoot(actions: seq<Action>)
    requires Saves(actions)
    ensures TotalSaved([actions]) == Left([actions]) == SavedUptime(actions) && Recounted([actions]) == 0
  {
    assert [actions][..0] == [];
  }

  lemma TwoBoots(front: seq<seq<Action>>, last: seq<Action>)
    requires !Saves(last)
    ensures TotalSaved(front + [last]) == TotalSaved(front) + SavedUptime(last)
    ensures Recounted(front + [last]) == Recounted(front) + Left(front)
  {
    assert (front + [last])[..|front|] == front;
  }
}
