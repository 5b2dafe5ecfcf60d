/** The resource manager and its move-only leases as mutable objects. The ledger is ghost state: who holds what. */
module ResourceManagerClass {
  import opened Basics
  import opened ResourceModel

  class ResourceManager {
    const capacity: Capacity
    var cpuUsed: Int32
    var ramUsed: Uint64
    var vramUsed: map<Bytes, Uint64>
    ghost var ledger: map<Lease, Requirement>

    ghost predicate Valid()
      reads this, ledger.Keys
    {
      && Balanced(capacity, InUse(), ledger)
      && forall l :: l in ledger ==> l.owner == this && l.requirement == ledger[l]
    }

    function InUse(): Usage
      reads this
    {
      Usage(cpuUsed, ramUsed, vramUsed)
    }

    constructor (capacity: Capacity)
      requires ValidCapacity(capacity)
      ensures Valid() && this.capacity == capacity && ledger == map[] && InUse() == NO_USAGE
    {
      this.capacity := capacity;
      cpuUsed, ramUsed, vramUsed, ledger := 0, 0, map[], map[];
    }

    /** Throws on an invalid requirement, which the result reports as `Invalid`. */
    method TryReserve(r: Requirement) returns (decision: Reservation, lease: Lease?)
      requires Valid()
      modifies this
      ensures Valid()
      ensures decision.Invalid? <==> r.cpu < 1 || r.ram == 0 || (r.gpu == [] && r.vram != 0) || (r.gpu != [] && r.vram == 0)
      ensures !decision.Invalid? <==> ValidRequirement(r)
      ensures ValidRequirement(r) ==> (decision.Granted? <==> old(Fits(capacity, ledger, r)))
      ensures InUse() == AfterReserve(capacity, old(InUse()), r)
      ensures decision.Granted? ==> lease != null && fresh(lease) && ledger == old(ledger)[lease := r]
      ensures !decision.Granted? ==> lease == null && ledger == old(ledger)
    {
      ghost var before := InUse();
      ReserveIsExact<Lease>(capacity, before, ledger, r);
      decision, lease := Refused, null;
      if !(r.cpu >= 1 && r.ram > 0 && (r.gpu == [] <==> r.vram == 0)) {
        decision := Invalid;
      } else if r.cpu > Sub32(capacity.cpu, cpuUsed) || r.ram > Sub64(capacity.ram, ramUsed) {
      } else if r.gpu != [] && r.gpu !in capacity.vram {
      } else {
        if r.gpu != [] && r.gpu !in vramUsed {
          vramUsed := vramUsed[r.gpu := 0];
        }
        if r.gpu == [] || r.vram <= Sub64(capacity.vram[r.gpu], vramUsed[r.gpu]) {
          cpuUsed, ramUsed := Add32(cpuUsed, r.cpu), Add64(ramUsed, r.ram);
          if r.gpu != [] {
            vramUsed := vramUsed[r.gpu := Add64(vramUsed[r.gpu], r.vram)];
          }
          decision := Granted;
          lease := new Lease.Grant(this, r);
        }
      }
      assert decision == Decide(capacity, before, r);
      assert InUse() == AfterReserve(capacity, before, r);
      if lease != null {
        GrantKeepsBalance<Lease>(capacity, before, ledger, lease, r);
        ledger := ledger[lease := r];
      } else {
        RefusalKeepsBalance<Lease>(capacity, before, ledger, r);
      }
    }

    /** Returns one lease's amounts; only a live lease calls it, once. */
    method Release(lease: Lease)
      requires Valid() && lease in ledger
      modifies this
      ensures Valid()
      ensures ledger == old(ledger) - {lease}
      ensures InUse() == AfterRelease(old(InUse()), old(ledger)[lease])
    {
      var r := lease.requirement;
      ReleaseKeepsBalance<Lease>(capacity, InUse(), ledger, lease);
      cpuUsed, ramUsed := Sub32(cpuUsed, r.cpu), Sub64(ramUsed, r.ram);
      if r.gpu != [] && r.gpu in vramUsed {
        var left := Sub64(vramUsed[r.gpu], r.vram);
        vramUsed := if left == 0 then vramUsed - {r.gpu} else vramUsed[r.gpu := left];
      }
      ledger := ledger - {lease};
    }
  }

  /** A lease without an owner holds nothing: it is default constructed, moved from, or already reset. */
  class Lease {
    var owner: ResourceManager?
    var requirement: Requirement

    ghost predicate Held()
      reads this, owner
    {
      owner != null ==> this in owner.ledger
    }

    constructor Empty()
      ensures owner == null
    {
      owner := null;
      requirement := Requirement(1, 0, [], 0);
    }

    constructor Grant(owner: ResourceManager, r: Requirement)
      ensures this.owner == owner && requirement == r
    {
      this.owner := owner;
      requirement := r;
    }

    method Reset()
      requires Held() && (owner != null ==> owner.Valid())
      modifies this`owner, if owner == null then {} else {owner}
      ensures owner == null
      ensures old(owner) != null ==> old(owner).Valid() && old(owner).ledger == old(owner.ledger) - {this}
    {
      if owner != null {
        owner.Release(this);
        owner := null;
      }
    }

    /** Move assignment: the old holding is returned, the other's is taken over, and the other is left empty. */
    method Take(other: Lease)
      requires Held() && other.Held()
      requires owner != null ==> owner.Valid()
      requires other.owner != null ==> other.owner.Valid()
      modifies this, other`owner, if owner == null then {} else {owner}, if other.owner == null then {} else {other.owner}
      ensures owner == old(other.owner) && Held()
      ensures owner != null ==> owner.Valid()
      ensures this == other ==> unchanged(this) && (owner != null ==> unchanged(owner))
      ensures this != other ==> other.owner == null
      ensures this != other && owner != null ==>
                owner.ledger == (old(other.owner.ledger) - {this, other})[this := old(other.requirement)]
      ensures this != other && old(owner) != null && owner != old(owner) ==>
                old(owner).Valid() && old(owner).ledger == old(owner.ledger) - {this}
    {
      hide Balanced;
      if this == other {
        return;
      }
      Reset();
      Adopt(other);
    }

    /** The second half of a move: an empty lease takes over what the other holds. */
    method Adopt(other: Lease)
      requires owner == null && this != other && other.Held()
      requires other.owner != null ==> other.owner.Valid() && this !in other.owner.ledger
      modifies this, other`owner, if other.owner == null then {} else {other.owner}
      ensures owner == old(other.owner) && other.owner == null
      ensures owner != null ==>
                && owner.Valid()
                && owner.ledger == (old(other.owner.ledger) - {other})[this := old(other.requirement)]
    {
      requirement := other.requirement;
      if other.owner != null {
        var manager := other.owner;
        MoveKeepsBalance<Lease>(manager.capacity, manager.InUse(), manager.ledger, other, this);
        hide Balanced;
        manager.ledger := (manager.ledger - {other})[this := requirement];
        owner := manager;
        other.owner := null;
      }
    }
  }
}
