/**
 The arithmetic of resource admission, with the machine widths of the source: CPU slots are a 32-bit `int`, byte
 counts are unsigned 64-bit and wrap. A ledger lists the requirement of every live lease; it is what the counters are
 supposed to add up to.
 */
module ResourceModel {
  import opened Basics

  const TWO_31 := 0x8000_0000
  const TWO_64 := 0x1_0000_0000_0000_0000

  type Int32 = x: int | -TWO_31 <= x < TWO_31
  type Uint64 = x: int | 0 <= x < TWO_64

  function Add32(a: Int32, b: Int32): Int32 {
    if a + b >= TWO_31 then a + b - 2 * TWO_31 else if a + b < -TWO_31 then a + b + 2 * TWO_31 else a + b
  }

  function Sub32(a: Int32, b: Int32): Int32 {
    if a - b >= TWO_31 then a - b - 2 * TWO_31 else if a - b < -TWO_31 then a - b + 2 * TWO_31 else a - b
  }

  function Add64(a: Uint64, b: Uint64): Uint64 {
    if a + b >= TWO_64 then a + b - TWO_64 else a + b
  }

  function Sub64(a: Uint64, b: Uint64): Uint64 {
    if a < b then a - b + TWO_64 else a - b
  }

  datatype Requirement = Requirement(cpu: Int32, ram: Uint64, gpu: Bytes, vram: Uint64)

  datatype Capacity = Capacity(cpu: Int32, ram: Uint64, vram: map<Bytes, Uint64>)

  datatype Usage = Usage(cpu: Int32, ram: Uint64, vram: map<Bytes, Uint64>)

  datatype Reservation = Invalid | Refused | Granted

  const NO_USAGE := Usage(0, 0, map[])

  /** The constructor of the resource manager rejects any other capacity. */
  predicate ValidCapacity(c: Capacity) {
    c.cpu >= 1 && c.ram > 0
  }

  predicate ValidRequirement(r: Requirement) {
    r.cpu >= 1 && r.ram > 0 && (r.gpu == [] <==> r.vram == 0)
  }

  predicate CanEverReserve(c: Capacity, r: Requirement) {
    && r.cpu <= c.cpu
    && r.ram <= c.ram
    && (r.gpu != [] ==> r.gpu in c.vram && r.vram <= c.vram[r.gpu])
  }

  function UsedVram(u: Usage, gpu: Bytes): Uint64 {
    if gpu in u.vram then u.vram[gpu] else 0
  }

  /** Looking a GPU up in the usage table inserts a zero entry when there is none. */
  function Touch(u: Usage, gpu: Bytes): Usage {
    u.(vram := u.vram[gpu := UsedVram(u, gpu)])
  }

  function Decide(c: Capacity, u: Usage, r: Requirement): Reservation {
    if !ValidRequirement(r) then Invalid
    else if r.cpu > Sub32(c.cpu, u.cpu) || r.ram > Sub64(c.ram, u.ram) then Refused
    else if r.gpu == [] then Granted
    else if r.gpu !in c.vram || r.vram > Sub64(c.vram[r.gpu], UsedVram(u, r.gpu)) then Refused
    else Granted
  }

  /** The counters `try_reserve` leaves behind, whatever it decides. */
  function AfterReserve(c: Capacity, u: Usage, r: Requirement): Usage {
    if Decide(c, u, r).Invalid? || r.cpu > Sub32(c.cpu, u.cpu) || r.ram > Sub64(c.ram, u.ram) then u
    else if r.gpu == [] then Usage(Add32(u.cpu, r.cpu), Add64(u.ram, r.ram), u.vram)
    else if r.gpu !in c.vram then u
    else if Decide(c, u, r).Refused? then Touch(u, r.gpu)
    else Usage(Add32(u.cpu, r.cpu), Add64(u.ram, r.ram), u.vram[r.gpu := Add64(UsedVram(u, r.gpu), r.vram)])
  }

  /** The counters `release` leaves behind; a GPU entry that reaches zero is erased. */
  function AfterRelease(u: Usage, r: Requirement): Usage {
    var vram :=
      if r.gpu == [] || r.gpu !in u.vram then u.vram
      else
        var left := Sub64(u.vram[r.gpu], r.vram);
        if left == 0 then u.vram - {r.gpu} else u.vram[r.gpu := left];
    Usage(Sub32(u.cpu, r.cpu), Sub64(u.ram, r.ram), vram)
  }

  // Sums over a ledger

  datatype Kind = Cpu | Ram | Vram(gpu: Bytes)

  function Amount(r: Requirement, kind: Kind): nat
    requires ValidRequirement(r)
  {
    match kind
    case Cpu => r.cpu
    case Ram => r.ram
    case Vram(g) => if g != [] && r.gpu == g then r.vram else 0
  }

  ghost predicate ValidLedger<K>(ledger: map<K, Requirement>) {
    forall k :: k in ledger ==> ValidRequirement(ledger[k])
  }

  ghost function Total<K>(ledger: map<K, Requirement>, kind: Kind): (sum: nat)
    requires ValidLedger(ledger)
    decreases |ledger|
  {
    if ledger == map[] then 0
    else
      var k :| k in ledger;
      Amount(ledger[k], kind) + Total(ledger - {k}, kind)
  }

  /** The total does not depend on the order in which leases are taken out of the ledger. */
  lemma {:induction false} TotalRemove<K>(ledger: map<K, Requirement>, key: K, kind: Kind)
    requires ValidLedger(ledger) && key in ledger
    ensures Total(ledger, kind) == Amount(ledger[key], kind) + Total(ledger - {key}, kind)
    decreases |ledger|
  {
    var k :| k in ledger && Total(ledger, kind) == Amount(ledger[k], kind) + Total(ledger - {k}, kind);
    if k != key {
      TotalRemove(ledger - {k}, key, kind);
      TotalRemove(ledger - {key}, k, kind);
      assert ledger - {k} - {key} == ledger - {key} - {k};
    }
  }

  lemma {:induction false} TotalInsert<K>(ledger: map<K, Requirement>, key: K, r: Requirement, kind: Kind)
    requires ValidLedger(ledger) && key !in ledger && ValidRequirement(r)
    ensures Total(ledger[key := r], kind) == Amount(r, kind) + Total(ledger, kind)
  {
    TotalRemove(ledger[key := r], key, kind);
    assert ledger[key := r] - {key} == ledger;
  }

  function CapacityOf(c: Capacity, kind: Kind): nat
    requires ValidCapacity(c)
  {
    match kind
    case Cpu => c.cpu
    case Ram => c.ram
    case Vram(g) => if g in c.vram then c.vram[g] else 0
  }

  function UsageOf(u: Usage, kind: Kind): int {
    match kind
    case Cpu => u.cpu
    case Ram => u.ram
    case Vram(g) => if g == [] then 0 else UsedVram(u, g)
  }

  /** Conservation: every counter equals the sum over live leases, and no sum exceeds the capacity. */
  ghost predicate Balanced<K>(c: Capacity, u: Usage, ledger: map<K, Requirement>) {
    && ValidCapacity(c)
    && ValidLedger(ledger)
    && forall kind :: UsageOf(u, kind) == Total(ledger, kind) && (kind != Vram([]) ==> Total(ledger, kind) <= CapacityOf(c, kind))
  }

  /** What admission means in unbounded arithmetic: the live leases and the new one fit together. */
  ghost predicate Fits<K>(c: Capacity, ledger: map<K, Requirement>, r: Requirement)
    requires ValidCapacity(c) && ValidLedger(ledger) && ValidRequirement(r)
  {
    && (r.gpu != [] ==> r.gpu in c.vram)
    && forall kind :: Amount(r, kind) > 0 ==> Total(ledger, kind) + Amount(r, kind) <= CapacityOf(c, kind)
  }

  /** The wrapping checks of `try_reserve` decide exactly that. */
  lemma {:induction false} ReserveIsExact<K>(c: Capacity, u: Usage, ledger: map<K, Requirement>, r: Requirement)
    requires Balanced(c, u, ledger)
    ensures Decide(c, u, r).Invalid? <==> !ValidRequirement(r)
    ensures ValidRequirement(r) ==> (Decide(c, u, r).Granted? <==> Fits(c, ledger, r))
  {
    assert UsageOf(u, Cpu) == Total(ledger, Cpu) <= CapacityOf(c, Cpu);
    assert UsageOf(u, Ram) == Total(ledger, Ram) <= CapacityOf(c, Ram);
    if ValidRequirement(r) {
      assert Amount(r, Cpu) > 0 && Amount(r, Ram) > 0;
      if r.gpu != [] {
        var k := Vram(r.gpu);
        assert UsageOf(u, k) == Total(ledger, k) <= CapacityOf(c, k);
        assert Amount(r, k) == r.vram > 0;
      }
    }
  }

  /** An admitted lease adds its amounts to the counters, without wrapping. */
  lemma {:induction false} GrantAdds<K>(c: Capacity, u: Usage, ledger: map<K, Requirement>, r: Requirement, kind: Kind)
    requires Balanced(c, u, ledger) && Decide(c, u, r).Granted?
    ensures UsageOf(AfterReserve(c, u, r), kind) == Total(ledger, kind) + Amount(r, kind)
    ensures kind != Vram([]) ==> Total(ledger, kind) + Amount(r, kind) <= CapacityOf(c, kind)
  {
    ReserveIsExact(c, u, ledger, r);
    assert UsageOf(u, kind) == Total(ledger, kind);
    assert kind != Vram([]) ==> Total(ledger, kind) <= CapacityOf(c, kind);
  }

  /** A granted reservation keeps the counters equal to the sums, now with the new lease. */
  lemma {:induction false} GrantKeepsBalance<K>(c: Capacity, u: Usage, ledger: map<K, Requirement>, key: K, r: Requirement)
    requires Balanced(c, u, ledger) && key !in ledger && Decide(c, u, r).Granted?
    ensures Balanced(c, AfterReserve(c, u, r), ledger[key := r])
  {
    forall kind
      ensures UsageOf(AfterReserve(c, u, r), kind) == Total(ledger[key := r], kind)
      ensures kind != Vram([]) ==> Total(ledger[key := r], kind) <= CapacityOf(c, kind)
    {
      GrantAdds(c, u, ledger, r, kind);
      TotalInsert(ledger, key, r, kind);
    }
  }

  /** A refused one changes no counter, although it may leave a zero entry behind. */
  lemma {:induction false} RefusalKeepsBalance<K>(c: Capacity, u: Usage, ledger: map<K, Requirement>, r: Requirement)
    requires Balanced(c, u, ledger) && !Decide(c, u, r).Granted?
    ensures Balanced(c, AfterReserve(c, u, r), ledger)
  {
    forall kind
      ensures UsageOf(AfterReserve(c, u, r), kind) == UsageOf(u, kind)
    {
    }
  }

  lemma {:induction false} ReleaseKeepsBalance<K>(c: Capacity, u: Usage, ledger: map<K, Requirement>, key: K)
    requires Balanced(c, u, ledger) && key in ledger
    ensures Balanced(c, AfterRelease(u, ledger[key]), ledger - {key})
  {
    var r := ledger[key];
    var after := AfterRelease(u, r);
    forall kind
      ensures UsageOf(after, kind) == Total(ledger - {key}, kind)
      ensures kind != Vram([]) ==> Total(ledger - {key}, kind) <= CapacityOf(c, kind)
    {
      TotalRemove(ledger, key, kind);
      assert UsageOf(u, kind) == Total(ledger, kind);
    }
  }

  /** Handing a lease over to another holder keeps the balance. */
  lemma {:induction false} MoveKeepsBalance<K>(c: Capacity, u: Usage, ledger: map<K, Requirement>, from: K, to: K)
    requires Balanced(c, u, ledger) && from in ledger && to !in ledger
    ensures Balanced(c, u, (ledger - {from})[to := ledger[from]])
  {
    forall kind
      ensures Total((ledger - {from})[to := ledger[from]], kind) == Total(ledger, kind)
    {
      TotalRemove(ledger, from, kind);
      TotalInsert(ledger - {from}, to, ledger[from], kind);
    }
  }

  /** With no lease alive a reservation succeeds exactly when the capacity could ever hold it. */
  lemma {:induction false} NoLeaseNoStall<K>(c: Capacity, u: Usage, ledger: map<K, Requirement>, r: Requirement)
    requires Balanced(c, u, ledger) && ledger == map[]
    requires ValidRequirement(r)
    ensures Decide(c, u, r).Granted? <==> CanEverReserve(c, r)
  {
    ReserveIsExact(c, u, ledger, r);
    assert forall kind :: Total(ledger, kind) == 0;
    assert Amount(r, Cpu) > 0 && Amount(r, Ram) > 0;
    if r.gpu != [] {
      assert Amount(r, Vram(r.gpu)) == r.vram;
    }
  }
}
