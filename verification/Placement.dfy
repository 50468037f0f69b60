/** Where router.go places an actor, and which references the nodes of one cluster build. */
module Placement {
  import opened Actors
  import opened Basics
  import opened Hashing

  datatype SystemConfig = SystemConfig(systemId: uint32, actorTypes: seq<uint32>)

  function Repeat(x: uint32, n: nat): seq<uint32> { seq(n, _ => x) }

  function Occurrences(types: seq<uint32>, t: uint32): nat {
    if types == [] then 0
    else Occurrences(types[..|types| - 1], t) + if types[|types| - 1] == t then 1 else 0
  }

  // The systems that declare t, in list order, once for each time they declare it.
  function Declaring(configs: seq<SystemConfig>, t: uint32): seq<uint32> {
    if configs == [] then []
    else
      var last := configs[|configs| - 1];
      Declaring(configs[..|configs| - 1], t) + Repeat(last.systemId, Occurrences(last.actorTypes, t))
  }

  // vactor.GroupSlot(quotient & 0xFFFF + 1), which is 0 when the uint16 overflows, and the guard against 0.
  function GroupSlot(quotient: nat): uint16 {
    var slot := (quotient % 0x1_0000 + 1) % 0x1_0000;
    if slot == 0 then 1 else slot
  }

  // The reference CreateActorRefEx builds on a node whose own id is localId.
  function Place(systemIds: seq<uint32>, localId: uint32, systemId: uint32, t: uint32, id: ActorId): ActorRef {
    var hash, n := HashOf(id), SystemCount(systemIds);
    ActorRef(if systemId != 0 then systemId else if n == 0 then localId else systemIds[Remainder(hash, n)],
             GroupSlot(if n > 0 then Quotient(hash, n) else hash), t, id)
  }

  // uint32(len(systemIds))
  function SystemCount(systemIds: seq<uint32>): (n: nat)
    ensures n <= |systemIds|
  {
    |systemIds| % WORD
  }

  function Remainder(a: nat, n: nat): (r: nat)
    requires n > 0
    ensures r < n
  {
    a % n
  }

  function Quotient(a: nat, n: nat): nat
    requires n > 0
  {
    a / n
  }

  class Router {
    const systemId: uint32
    ghost const configs: seq<SystemConfig>
    var actorType2SystemIds: map<uint32, seq<uint32>>

    function SystemIds(t: uint32): seq<uint32>
      reads this
    {
      Lookup(actorType2SystemIds, t)
    }

    ghost predicate Valid()
      reads this
    {
      forall t :: SystemIds(t) == Declaring(configs, t)
    }

    /** NewRouter */
    constructor (localSystemId: uint32, systemConfigs: seq<SystemConfig>)
      ensures Valid() && systemId == localSystemId && configs == systemConfigs
    {
      systemId, configs := localSystemId, systemConfigs;
      actorType2SystemIds := map[];
      new;
      for i := 0 to |systemConfigs|
        invariant forall t :: SystemIds(t) == Declaring(systemConfigs[..i], t)
      {
        assert systemConfigs[..i + 1][..i] == systemConfigs[..i];
        actorType2SystemIds := AppendSystem(actorType2SystemIds, systemConfigs[i]);
      }
      assert systemConfigs[..|systemConfigs|] == systemConfigs;
    }

    // Where the remainder r of the hash says; q, the quotient, gives the slot.
    method CreateActorRefEx(systemId: uint32, actorType: uint32, actorId: ActorId)
      returns (ref: ActorRef, ghost q: nat, ghost r: nat)
      ensures ref == Place(SystemIds(actorType), this.systemId, systemId, actorType, actorId)
      ensures var ids := SystemIds(actorType);
              |ids| < WORD ==>
                if ids == [] then
                  q == HashOf(actorId)
                  && IsPlacedAt(ref, if systemId == 0 then this.systemId else systemId, q, actorType, actorId)
                else
                  HashOf(actorId) == q * |ids| + r && r < |ids|
                  && IsPlacedAt(ref, if systemId == 0 then ids[r] else systemId, q, actorType, actorId)
    {
      var systemIds := SystemIds(actorType);
      var hash := HashLoop(actorId);
      var systemCount := SystemCount(systemIds);
      var target := systemId;
      if target == 0 {
        if systemCount == 0 {
          target := this.systemId;
        } else {
          target := systemIds[Remainder(hash, systemCount)];
        }
      }
      var slot := GroupSlot(if systemCount > 0 then Quotient(hash, systemCount) else hash);
      ref := ActorRef(target, slot, actorType, actorId);
      q, r := hash, 0;
      if 0 < |systemIds| < WORD {
        q, r := Quotient(hash, |systemIds|), Remainder(hash, |systemIds|);
        Division(hash, |systemIds|);
        PlacedByQuotient(systemIds, this.systemId, systemId, actorType, actorId, q, r);
      } else if systemIds == [] {
        PlacedWithoutDeclaration(this.systemId, systemId, actorType, actorId);
      }
    }
  }

  // The inner loop of NewRouter.
  method AppendSystem(m: map<uint32, seq<uint32>>, config: SystemConfig) returns (r: map<uint32, seq<uint32>>)
    ensures forall t :: Lookup(r, t) == Lookup(m, t) + Repeat(config.systemId, Occurrences(config.actorTypes, t))
  {
    r := m;
    var types := config.actorTypes;
    for j := 0 to |types|
      invariant forall t :: Lookup(r, t) == Lookup(m, t) + Repeat(config.systemId, Occurrences(types[..j], t))
    {
      assert types[..j + 1][..j] == types[..j];
      OneMore(config.systemId, Occurrences(types[..j], types[j]));
      Associative(Lookup(m, types[j]), Repeat(config.systemId, Occurrences(types[..j], types[j])), [config.systemId]);
      r := r[types[j] := Lookup(r, types[j]) + [config.systemId]];
    }
    assert types[..|types|] == types;
  }

  function Lookup(m: map<uint32, seq<uint32>>, t: uint32): seq<uint32> { if t in m then m[t] else [] }

  lemma OneMore(x: uint32, n: nat)
    ensures Repeat(x, n) + [x] == Repeat(x, n + 1) && Repeat(x, 0) == []
  {}

  ghost predicate Declares(configs: seq<SystemConfig>, id: uint32, t: uint32) {
    exists c :: c in configs && c.systemId == id && t in c.actorTypes
  }

  /** Every system listed for a type declares it, and every system that declares it is listed. */
  lemma {:induction false} DeclaringIsDeclared(configs: seq<SystemConfig>, t: uint32, id: uint32)
    ensures id in Declaring(configs, t) <==> Declares(configs, id, t)
  {
    if configs == [] {
    } else {
      var init, last := configs[..|configs| - 1], configs[|configs| - 1];
      DeclaringIsDeclared(init, t, id);
      OccursIffMember(last.actorTypes, t);
      var n := Occurrences(last.actorTypes, t);
      assert id in Repeat(last.systemId, n) <==> n > 0 && id == last.systemId by {
        if n > 0 { assert Repeat(last.systemId, n)[0] == last.systemId; }
      }
      assert configs == init + [last];
    }
  }

  lemma {:induction false} OccursIffMember(types: seq<uint32>, t: uint32)
    ensures Occurrences(types, t) > 0 <==> t in types
  {
    if types == [] {
    } else {
      OccursIffMember(types[..|types| - 1], t);
      assert types == types[..|types| - 1] + [types[|types| - 1]];
    }
  }

  /** The systems that declare a type stand in list order, a system as often as it declares it. */
  lemma {:induction false} DeclaringInOrder(a: seq<SystemConfig>, b: seq<SystemConfig>, t: uint32)
    ensures Declaring(a + b, t) == Declaring(a, t) + Declaring(b, t)
  {
    if b == [] {
      assert a + b == a;
    } else {
      var init, last := b[..|b| - 1], b[|b| - 1];
      DeclaringInOrder(a, init, t);
      assert (a + b)[..|a + b| - 1] == a + init && (a + b)[|a + b| - 1] == last;
      Associative(Declaring(a, t), Declaring(init, t), Repeat(last.systemId, Occurrences(last.actorTypes, t)));
    }
  }

  lemma DeclaringOne(c: SystemConfig, t: uint32)
    ensures |Declaring([c], t)| == multiset(c.actorTypes)[t]
    ensures forall id :: id in Declaring([c], t) ==> id == c.systemId
  {
    assert [c][..0] == [];
    OccurrencesCount(c.actorTypes, t);
  }

  lemma {:induction false} OccurrencesCount(types: seq<uint32>, t: uint32)
    ensures Occurrences(types, t) == multiset(types)[t]
  {
    if types == [] {
    } else {
      OccurrencesCount(types[..|types| - 1], t);
      assert types == types[..|types| - 1] + [types[|types| - 1]];
    }
  }

  /** The hash decides: with q and r the quotient and remainder of the hash by the number of declaring
      systems, an actor with no given system goes to the r-th of them, and its slot follows q. */
  lemma PlacedByHash(ids: seq<uint32>, localId: uint32, systemId: uint32, t: uint32, id: ActorId, q: nat, r: nat)
    requires 0 < |ids| < WORD && HashOf(id) == q * |ids| + r && r < |ids|
    ensures IsPlacedAt(Place(ids, localId, systemId, t, id), if systemId == 0 then ids[r] else systemId, q, t, id)
  {
    DivisionIsUnique(HashOf(id), |ids|, q, r);
    PlacedByQuotient(ids, localId, systemId, t, id, q, r);
  }

  // The reference to (t, id) on a system, with the slot of a quotient.
  predicate IsPlacedAt(ref: ActorRef, systemId: uint32, q: nat, t: uint32, id: ActorId) {
    && ref.systemId == systemId && ref.actorType == t && ref.actorId == id
    && ref.groupSlot == if q % 0x1_0000 == 0xFFFF then 1 else q % 0x1_0000 + 1
  }

  lemma PlacedByQuotient(ids: seq<uint32>, localId: uint32, systemId: uint32, t: uint32, id: ActorId, q: nat, r: nat)
    requires 0 < |ids| < WORD && Quotient(HashOf(id), |ids|) == q && Remainder(HashOf(id), |ids|) == r
    ensures r < |ids|
    ensures IsPlacedAt(Place(ids, localId, systemId, t, id), if systemId == 0 then ids[r] else systemId, q, t, id)
  {
    ChoiceIsListed(ids, HashOf(id));
    SlotOf(q);
  }

  lemma SlotOf(q: nat)
    ensures GroupSlot(q) == if q % 0x1_0000 == 0xFFFF then 1 else q % 0x1_0000 + 1
  {}

  lemma PlacedWithoutDeclaration(localId: uint32, systemId: uint32, t: uint32, id: ActorId)
    ensures var home := if systemId == 0 then localId else systemId;
            IsPlacedAt(Place([], localId, systemId, t, id), home, HashOf(id), t, id)
  {
    assert SystemCount([]) == 0;
    SlotOf(HashOf(id));
  }

  lemma DivisionIsUnique(a: nat, n: nat, q: nat, r: nat)
    requires r < n && a == q * n + r
    ensures Quotient(a, n) == q && Remainder(a, n) == r
  {
    var d := a / n;
    Division(a, n);
    if d < q {
      Multiples(d + 1, q, n);
    } else if q < d {
      Multiples(q + 1, d, n);
    }
  }

  lemma Division(a: nat, n: nat)
    requires n > 0
    ensures a == Quotient(a, n) * n + Remainder(a, n)
  {}

  lemma Multiples(x: nat, y: nat, n: nat)
    requires x <= y
    ensures x * n <= y * n
  {}

  /** Two nodes with the same SystemConfigs build the same reference exactly when the system is given, the
      type is declared somewhere, or they are the same node; otherwise each places the actor at home. */
  lemma PlacementAgreement(configs: seq<SystemConfig>, local1: uint32, local2: uint32,
                           systemId: uint32, t: uint32, id: ActorId)
    requires |Declaring(configs, t)| < WORD
    ensures var ids := Declaring(configs, t);
            Place(ids, local1, systemId, t, id) == Place(ids, local2, systemId, t, id) <==>
              systemId != 0 || (exists sys :: Declares(configs, sys, t)) || local1 == local2
  {
    var ids := Declaring(configs, t);
    NodeMatters(ids, local1, local2, systemId, t, id);
    if ids != [] {
      ChoiceIsListed(ids, 0);
      DeclaringIsDeclared(configs, t, ids[0]);
    }
    if sys :| Declares(configs, sys, t) { DeclaringIsDeclared(configs, t, sys); }
  }

  lemma NodeMatters(ids: seq<uint32>, local1: uint32, local2: uint32, systemId: uint32, t: uint32, id: ActorId)
    ensures Place(ids, local1, systemId, t, id) == Place(ids, local2, systemId, t, id) <==>
              systemId != 0 || SystemCount(ids) != 0 || local1 == local2
  {}

  /** A declared type without an explicit system goes to a system that declares it. */
  lemma PlacedWhereDeclared(configs: seq<SystemConfig>, localId: uint32, t: uint32, id: ActorId)
    requires 0 < |Declaring(configs, t)| < WORD
    ensures Declares(configs, Place(Declaring(configs, t), localId, 0, t, id).systemId, t)
  {
    var ids := Declaring(configs, t);
    ChoiceIsListed(ids, HashOf(id));
    DeclaringIsDeclared(configs, t, ids[Remainder(HashOf(id), SystemCount(ids))]);
  }

  lemma ChoiceIsListed(ids: seq<uint32>, hash: nat)
    requires 0 < |ids| < WORD
    ensures SystemCount(ids) == |ids| && ids[Remainder(hash, |ids|)] in ids
  {}

  /** The group slot is never 0, does not depend on the node or on whether the system is given, and is
      one more than the low 16 bits of the quotient, except that quotients ending in 0xFFFF share slot 1
      with those ending in 0. */
  lemma GroupSlotLaw(ids: seq<uint32>, local1: uint32, local2: uint32, sys1: uint32, sys2: uint32,
                     t: uint32, id: ActorId)
    ensures var slot := Place(ids, local1, sys1, t, id).groupSlot;
            var n := SystemCount(ids);
            var low := (if n > 0 then Quotient(HashOf(id), n) else HashOf(id)) % 0x1_0000;
            && slot == Place(ids, local2, sys2, t, id).groupSlot != 0
            && (slot == 1 <==> low == 0 || low == 0xFFFF)
            && (low != 0xFFFF ==> slot == low + 1)
  {}
}
