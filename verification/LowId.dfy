/**
 The pool of LowIDs (ed2k/lowidclients.go): 24-bit client IDs handed out by probing from a
 seed, over the whole range or over its odd or even half, with counters instead of scans.
 */
module LowId {
  const CEILING: nat := 0xffffff

  datatype Parity = Any | Even | Odd

  predicate Fits(id: nat, parity: Parity) {
    match parity case Any => true case Even => id % 2 == 0 case Odd => id % 2 == 1
  }

  function StepOf(parity: Parity): nat { if parity.Any? then 1 else 2 }

  /** The lowest ID of the parity in [min, max], and how many there are. */
  function Span(min: nat, max: nat, parity: Parity): (nat, nat)
    requires min <= max
  {
    var first := if Fits(min, parity) then min else min + 1;
    (first, if first > max then 0 else (max - first) / StepOf(parity) + 1)
  }

  /** The IDs of a parity in the range, and the ones of it that are held. */
  ghost function IdsOf(min: nat, max: nat, parity: Parity): set<nat> {
    set id | min <= id <= max && Fits(id, parity)
  }

  ghost function Held(ids: set<nat>, parity: Parity): set<nat> {
    set id | id in ids && Fits(id, parity)
  }

  /** The k-th ID of a span. */
  function Nth(first: nat, parity: Parity, k: nat): nat { first + StepOf(parity) * k }

  lemma NthInRange(min: nat, max: nat, parity: Parity, k: nat)
    requires min <= max && k < Span(min, max, parity).1
    ensures var id := Nth(Span(min, max, parity).0, parity, k); min <= id <= max && Fits(id, parity)
  {
  }

  /** A span counts every ID of its parity in the range, and nothing else. */
  lemma {:induction false} SpanCounts(min: nat, max: nat, parity: Parity)
    requires min <= max
    ensures |IdsOf(min, max, parity)| == Span(min, max, parity).1
    decreases max - min
  {
    hide Span, Fits, IdsOf;
    if min == max {
      SpanOne(min, parity);
    } else {
      SpanCounts(min + 1, max, parity);
      IdsNext(min, max, parity);
      SpanNext(min, max, parity);
    }
  }

  lemma IdsNext(min: nat, max: nat, parity: Parity)
    requires min < max
    ensures |IdsOf(min, max, parity)| == |IdsOf(min + 1, max, parity)| + if Fits(min, parity) then 1 else 0
  {
    hide Fits;
    var rest := IdsOf(min + 1, max, parity);
    assert min !in rest;
    assert IdsOf(min, max, parity) == if Fits(min, parity) then rest + {min} else rest;
  }

  lemma SpanOne(id: nat, parity: Parity)
    ensures |IdsOf(id, id, parity)| == Span(id, id, parity).1
  {
    assert IdsOf(id, id, parity) == if Fits(id, parity) then {id} else {};
  }

  lemma SpanNext(min: nat, max: nat, parity: Parity)
    requires min < max
    ensures Span(min, max, parity).1 == Span(min + 1, max, parity).1 + if Fits(min, parity) then 1 else 0
  {
  }

  /** When every held ID is in range, the counters say "full" exactly when every ID of the parity is taken. */
  lemma FullIsExact(ids: set<nat>, min: nat, max: nat, parity: Parity)
    requires min <= max && forall id :: id in ids ==> min <= id <= max
    ensures |Held(ids, parity)| >= Span(min, max, parity).1 <==> IdsOf(min, max, parity) <= ids
  {
    hide Span;
    var all, held := IdsOf(min, max, parity), Held(ids, parity);
    SpanCounts(min, max, parity);
    assert held <= all;
    Subset(held, all);
    if all <= ids {
      assert held == all;
    }
  }

  lemma Subset<T>(a: set<T>, b: set<T>)
    requires a <= b
    ensures |a| <= |b| && (|a| == |b| ==> a == b) && |b - a| == |b| - |a|
  {
    assert a + (b - a) == b && a * (b - a) == {};
  }

  lemma HeldWith(ids: set<nat>, id: nat, parity: Parity)
    ensures id !in ids ==> |Held(ids + {id}, parity)| == |Held(ids, parity)| + if Fits(id, parity) then 1 else 0
    ensures id in ids ==> |Held(ids, parity)| == |Held(ids - {id}, parity)| + if Fits(id, parity) then 1 else 0
  {
    hide Fits;
    var held := Held(ids, parity);
    assert Held(ids + {id}, parity) == if Fits(id, parity) then held + {id} else held;
    assert Held(ids - {id}, parity) == held - {id};
    assert id in held <==> id in ids && Fits(id, parity);
  }

  /** With IDs outside the range held as well, a half that is really full is still never called free. */
  lemma FullIsSafe(ids: set<nat>, min: nat, max: nat, parity: Parity)
    requires min <= max && IdsOf(min, max, parity) <= ids
    ensures |Held(ids, parity)| >= Span(min, max, parity).1
  {
    hide Span;
    SpanCounts(min, max, parity);
    assert IdsOf(min, max, parity) <= Held(ids, parity);
    Subset(IdsOf(min, max, parity), Held(ids, parity));
  }

  /** Every ID of the parity in the range is one the span names. */
  lemma NthOnto(min: nat, max: nat, parity: Parity, id: nat) returns (k: nat)
    requires min <= id <= max && Fits(id, parity)
    ensures k < Span(min, max, parity).1 && Nth(Span(min, max, parity).0, parity, k) == id
  {
    var first := Span(min, max, parity).0;
    assert first <= id;
    k := (id - first) / StepOf(parity);
    if !parity.Any? {
      assert (id - first) % 2 == 0;
    }
  }

  ghost predicate Hits(seed: nat -> nat, span: nat, r: nat)
    requires span > 0
  {
    exists nonce :: 0 <= nonce < span && seed(nonce) % span == r
  }

  /** The nonces reach every residue of the span. */
  ghost predicate Reaches(seed: nat -> nat, span: nat)
    requires span > 0
  {
    forall r :: 0 <= r < span ==> Hits(seed, span, r)
  }

  /** A hash that reaches every residue finds a free ID whenever there is one. */
  lemma FreeIsFound(seed: nat -> nat, ids: set<nat>, min: nat, max: nat, parity: Parity)
    requires min <= max && Span(min, max, parity).1 > 0 && Reaches(seed, Span(min, max, parity).1)
    ensures var (first, span) := Span(min, max, parity);
            (exists nonce :: 0 <= nonce < span && Nth(first, parity, seed(nonce) % span) !in ids) <==>
            exists id :: min <= id <= max && Fits(id, parity) && id !in ids
  {
    var (first, span) := Span(min, max, parity);
    if id :| min <= id <= max && Fits(id, parity) && id !in ids {
      var k := NthOnto(min, max, parity, id);
      assert Hits(seed, span, k);
      var nonce :| 0 <= nonce < span && seed(nonce) % span == k;
      assert Nth(first, parity, seed(nonce) % span) == id;
    }
    if nonce :| 0 <= nonce < span && Nth(first, parity, seed(nonce) % span) !in ids {
      NthInRange(min, max, parity, seed(nonce) % span);
    }
  }

  class LowIDClients<Client> {
    const min: nat
    const max: nat
    const allowLowIDs: bool
    var count: nat
    var oddCount: nat
    var clients: map<nat, Client>

    ghost predicate Valid()
      reads this
    {
      && 1 <= min <= max <= CEILING
      && count == |clients| && oddCount == |Held(clients.Keys, Odd)|
      && forall id :: id in clients ==> 1 <= id <= CEILING
    }

    constructor (allowLowIDs: bool, lo: nat, hi: nat)
      ensures Valid() && clients == map[] && this.allowLowIDs == allowLowIDs
      ensures var top := if hi == 0 || hi > CEILING then CEILING else hi;
              if lo > top then min == 1 && max == CEILING else min == (if lo == 0 then 1 else lo) && max == top
    {
      var a := if lo == 0 then 1 else lo;
      var b := if hi == 0 || hi > CEILING then CEILING else hi;
      if a > b {
        a, b := 1, CEILING;
      }
      min, max, this.allowLowIDs, count, oddCount, clients := a, b, allowLowIDs, 0, 0, map[];
      new;
      assert Held({}, Odd) == {};
    }

    method Put(id: nat, client: Client)
      requires Valid() && id !in clients && 1 <= id <= CEILING
      modifies this`clients, this`count, this`oddCount
      ensures Valid() && clients == old(clients)[id := client]
    {
      HeldWith(clients.Keys, id, Odd);
      hide Held;
      clients := clients[id := client];
      assert clients.Keys == old(clients.Keys) + {id};
      count := count + 1;
      if id % 2 == 1 {
        oddCount := oddCount + 1;
      }
    }

    /** How many IDs the parity's half competes for: exactly the held ones of that parity. */
    method Used(parity: Parity) returns (n: nat)
      requires Valid()
      ensures n == |Held(clients.Keys, parity)|
    {
      var ids := clients.Keys;
      assert Held(ids, Any) == ids && Held(ids, Odd) <= ids && Held(ids, Even) == ids - Held(ids, Odd);
      Subset(Held(ids, Odd), ids);
      hide Held;
      match parity
      case Any => n := count;
      case Odd => n := oddCount;
      case Even => n := count - oddCount;
    }

    /** The ID the nonce's hash probes. */
    function Probe(seed: nat -> nat, parity: Parity, nonce: nat): nat
      requires min <= max && Span(min, max, parity).1 > 0
    {
      var (first, span) := Span(min, max, parity);
      Nth(first, parity, seed(nonce) % span)
    }

    method AddByKey(seed: nat -> nat, client: Client, parity: Parity) returns (id: nat, ok: bool)
      requires Valid()
      modifies this`clients, this`count, this`oddCount
      ensures Valid()
      ensures var span := Span(min, max, parity).1;
              && (ok ==> min <= id <= max && Fits(id, parity) && id !in old(clients) && clients == old(clients)[id := client])
              && (!ok ==> clients == old(clients))
              && (ok ==> exists k :: 0 <= k < span && id == Probe(seed, parity, k)
                                     && forall j :: 0 <= j < k ==> Probe(seed, parity, j) in old(clients))
              && (ok <==> && allowLowIDs && |Held(old(clients.Keys), parity)| < span
                          && exists nonce :: 0 <= nonce < span && Probe(seed, parity, nonce) !in old(clients))
    {
      if !allowLowIDs {
        return 0, false;
      }
      var used := Used(parity);
      var (first, span) := Span(min, max, parity);
      if span == 0 || used >= span {
        return 0, false;
      }
      for nonce := 0 to span
        invariant forall k :: 0 <= k < nonce ==> Probe(seed, parity, k) in clients
        invariant Valid() && clients == old(clients)
      {
        id := Probe(seed, parity, nonce);
        NthInRange(min, max, parity, seed(nonce) % span);
        if id !in clients {
          Put(id, client);
          return id, true;
        }
      }
      return 0, false;
    }

    /** With such a hash a client gets an ID exactly when one of its parity is free, if no held ID is out of range. */
    lemma Obtainable(seed: nat -> nat, parity: Parity)
      requires Valid() && (forall id :: id in clients ==> min <= id <= max)
      requires var span := Span(min, max, parity).1; span > 0 && Reaches(seed, span)
      ensures var span := Span(min, max, parity).1;
              (|Held(clients.Keys, parity)| < span && exists nonce :: 0 <= nonce < span && Probe(seed, parity, nonce) !in clients)
              <==> exists id :: min <= id <= max && Fits(id, parity) && id !in clients
    {
      var (first, span) := Span(min, max, parity);
      FreeIsFound(seed, clients.Keys, min, max, parity);
      FullIsExact(clients.Keys, min, max, parity);
      hide Span, Held, Nth, Fits;
      assert forall nonce :: 0 <= nonce < span ==> Probe(seed, parity, nonce) == Nth(first, parity, seed(nonce) % span);
      if id :| min <= id <= max && Fits(id, parity) && id !in clients {
        assert id in IdsOf(min, max, parity) && id !in clients.Keys;
      }
    }

    method Restore(id: nat, client: Client) returns (ok: bool)
      requires Valid()
      modifies this`clients, this`count, this`oddCount
      ensures Valid() && ok == (1 <= id <= CEILING && id !in old(clients))
      ensures clients == if ok then old(clients)[id := client] else old(clients)
    {
      if id == 0 || id > CEILING || id in clients {
        return false;
      }
      Put(id, client);
      return true;
    }

    method Remove(id: nat)
      requires Valid()
      modifies this`clients, this`count, this`oddCount
      ensures Valid() && clients == old(clients) - {id}
    {
      if id in clients {
        HeldWith(clients.Keys, id, Odd);
        hide Held;
        clients := clients - {id};
        assert clients.Keys == old(clients.Keys) - {id};
        count := count - 1;
        if id % 2 == 1 {
          oddCount := oddCount - 1;
        }
      }
    }
  }
}
