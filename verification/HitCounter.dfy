/** The compressed array of hit counts: its index is the distance from the lowest address, divided
    by the least divisor seen of any address. */
module HitCounter {
  import opened Utils

  const UNSEEN := WORD - 1

  /** No number from 2 up to d divides an address of the trace, and d does divide one. */
  predicate IsLeastDivisor(d: nat, trace: seq<nat>) {
    2 <= d &&
    (forall i, a :: 2 <= i < d && a in trace ==> !Divides(i, a)) &&
    exists a :: a in trace && Divides(d, a)
  }

  lemma {:induction false} DividesIs(i: nat, a: nat)
    requires i > 0
    ensures Divides(i, a) <==> a % i == 0
  {
  }

  predicate Divides(i: nat, a: nat)
    requires i > 0
  {
    a % i == 0
  }

  /** The counter's index for an address. */
  function Index(min: nat, mod: nat, a: nat): nat
    requires min <= a && mod > 0
  {
    (a - min) / mod
  }

  predicate AllFrom(hits: seq<nat>, min: nat) {
    forall i :: 0 <= i < |hits| ==> min <= hits[i]
  }

  /** Every hit is a multiple of mod away from the lowest address. */
  predicate AllAligned(hits: seq<nat>, min: nat, mod: nat)
    requires mod > 0
  {
    forall i :: 0 <= i < |hits| ==> (hits[i] - min) % mod == 0
  }

  /** The hits that share an index. */
  function Bucket(hits: seq<nat>, min: nat, mod: nat, i: nat): nat
    requires mod > 0 && AllFrom(hits, min)
  {
    if hits == [] then 0
    else Bucket(hits[..|hits| - 1], min, mod, i) + if Index(min, mod, hits[|hits| - 1]) == i then 1 else 0
  }

  function Occurrences(hits: seq<nat>, a: nat): nat {
    if hits == [] then 0 else Occurrences(hits[..|hits| - 1], a) + if hits[|hits| - 1] == a then 1 else 0
  }

  function Sum(counts: seq<nat>): nat {
    if counts == [] then 0 else Sum(counts[..|counts| - 1]) + counts[|counts| - 1]
  }

  lemma {:induction false} SumUpdate(counts: seq<nat>, i: nat)
    requires i < |counts|
    ensures Sum(counts[i := counts[i] + 1]) == Sum(counts) + 1
  {
    var n := |counts| - 1;
    var after := counts[i := counts[i] + 1];
    if i < n {
      SumUpdate(counts[..n], i);
      assert after[..n] == counts[..n][i := counts[..n][i] + 1];
    } else {
      assert after[..n] == counts[..n];
    }
  }

  lemma {:induction false} SumZeros(counts: seq<nat>)
    requires forall i :: 0 <= i < |counts| ==> counts[i] == 0
    ensures Sum(counts) == 0
  {
    if counts != [] {
      SumZeros(counts[..|counts| - 1]);
    }
  }

  lemma {:induction false} IndexInBounds(min: nat, max: nat, mod: nat, a: nat)
    requires mod > 0 && min <= a <= max
    ensures Index(min, mod, a) < (max - min) / mod + 1
  {
    DivMonotone(a - min, max - min, mod);
  }

  lemma {:induction false} DivMonotone(x: nat, y: nat, m: nat)
    requires x <= y && m > 0
    ensures x / m <= y / m
  {
    if x / m > y / m {
      assert (x / m - y / m) * m >= m by { MulAtLeast(x / m - y / m, m); }
    }
  }

  lemma {:induction false} BucketAppend(hits: seq<nat>, min: nat, mod: nat, a: nat, i: nat)
    requires mod > 0 && min <= a && AllFrom(hits, min)
    ensures AllFrom(hits + [a], min)
    ensures Bucket(hits + [a], min, mod, i) == Bucket(hits, min, mod, i) + if Index(min, mod, a) == i then 1 else 0
  {
    assert (hits + [a])[..|hits|] == hits;
  }

  /** If every hit is at a multiple of mod from the lowest address, the bucket holds one address only. */
  lemma {:induction false} BucketIsOwnCount(hits: seq<nat>, min: nat, mod: nat, a: nat)
    requires mod > 0 && min <= a && (a - min) % mod == 0
    requires AllFrom(hits, min) && AllAligned(hits, min, mod)
    ensures Bucket(hits, min, mod, Index(min, mod, a)) == Occurrences(hits, a)
  {
    if hits != [] {
      var rest := hits[..|hits| - 1];
      BucketIsOwnCount(rest, min, mod, a);
    }
  }

  /** In general it counts at least the address's own hits, and counts more exactly if another address
      of the hits shares its index. */
  lemma {:induction false} BucketIsOwnCountIff(hits: seq<nat>, min: nat, mod: nat, a: nat)
    requires mod > 0 && min <= a && AllFrom(hits, min)
    ensures Bucket(hits, min, mod, Index(min, mod, a)) >= Occurrences(hits, a)
    ensures Bucket(hits, min, mod, Index(min, mod, a)) == Occurrences(hits, a) <==>
              forall i :: 0 <= i < |hits| && Index(min, mod, hits[i]) == Index(min, mod, a) ==> hits[i] == a
  {
    if hits != [] {
      var rest, last := hits[..|hits| - 1], hits[|hits| - 1];
      BucketIsOwnCountIff(rest, min, mod, a);
      assert forall i :: 0 <= i < |rest| ==> rest[i] == hits[i];
    }
  }

  /** address_hit_counter_t, with the addresses it was shown and those it counted. */
  class AddressHitCounter {
    var minAddress: nat
    var maxAddress: nat
    var modAddress: nat
    var counter: array<nat>
    ghost var seen: seq<nat>
    ghost var hits: seq<nat>

    /** While the addresses are being collected. */
    ghost predicate Collects()
      reads this
    {
      && 2 <= modAddress <= UNSEEN
      && (forall a :: a in seen ==> 2 <= a <= UNSEEN && minAddress <= a <= maxAddress)
      && (if seen == [] then minAddress == UNSEEN && maxAddress == 0 && modAddress == UNSEEN
          else minAddress in seen && maxAddress in seen && IsLeastDivisor(modAddress, seen))
    }

    /** Once the array is allocated: each counter is the number of hits with its index. */
    ghost predicate Counts()
      reads this, counter
    {
      && modAddress > 0 && minAddress <= maxAddress && counter.Length == (maxAddress - minAddress) / modAddress + 1
      && AllFrom(hits, minAddress)
      && (forall i :: 0 <= i < counter.Length ==> counter[i] == Bucket(hits, minAddress, modAddress, i))
      && Sum(counter[..]) == |hits|
    }

    constructor ()
      ensures Collects() && seen == [] && hits == []
    {
      minAddress, maxAddress, modAddress := UNSEEN, 0, UNSEEN;
      counter := new nat[0];
      seen, hits := [], [];
    }

    /** hook_min_max_mod.  The bound of its loop is the field the loop itself lowers. */
    method See(address: nat)
      requires Collects() && 2 <= address <= UNSEEN
      modifies this
      ensures Collects() && seen == old(seen) + [address] && hits == old(hits) && counter == old(counter)
    {
      hide IsLeastDivisor, Divides;
      if minAddress > address {
        minAddress := address;
      }
      if maxAddress < address {
        maxAddress := address;
      }
      ghost var modWas := modAddress;
      var i := 2;
      while i < modAddress
        invariant 2 <= i && 2 <= modAddress <= modWas
        invariant forall j :: 2 <= j < i && j < modAddress ==> !Divides(j, address)
        invariant modAddress == modWas || (Divides(modAddress, address) && i > modAddress)
        invariant minAddress == (if old(minAddress) > address then address else old(minAddress))
        invariant maxAddress == (if old(maxAddress) < address then address else old(maxAddress))
        invariant seen == old(seen) && hits == old(hits) && counter == old(counter)
        decreases modWas - i
      {
        DividesIs(i, address);
        if address % i == 0 {
          modAddress := i;
        }
        i := i + 1;
      }
      SeesDivisor(old(seen), address, modWas, modAddress);
      seen := seen + [address];
    }

    /** The array is allocated when the counting run is over. */
    method Allocate()
      requires Collects() && seen != []
      modifies this
      ensures Counts() && fresh(counter) && hits == [] && seen == old(seen)
      ensures minAddress == old(minAddress) && maxAddress == old(maxAddress) && modAddress == old(modAddress)
    {
      hide IsLeastDivisor, Divides;
      var length := (maxAddress - minAddress) / modAddress + 1;
      counter := new nat[length](_ => 0);
      hits := [];
      SumZeros(counter[..]);
    }

    /** address_hit */
    method Hit(address: nat) returns (count: nat)
      requires Counts() && minAddress <= address <= maxAddress
      modifies this`hits, counter
      ensures Counts() && hits == old(hits) + [address]
      ensures count == Bucket(hits, minAddress, modAddress,
                              Index(minAddress, modAddress, address)) >= Occurrences(hits, address)
      ensures AllAligned(hits, minAddress, modAddress) ==> count == Occurrences(hits, address)
    {
      hide Bucket, Occurrences, Sum;
      var index := (address - minAddress) / modAddress;
      IndexInBounds(minAddress, maxAddress, modAddress, address);
      ghost var counts := counter[..];
      counter[index] := counter[index] + 1;
      SumUpdate(counts, index);
      assert counter[..] == counts[index := counts[index] + 1];
      forall i | 0 <= i < counter.Length
        ensures counter[i] == Bucket(hits + [address], minAddress, modAddress, i)
      {
        BucketAppend(hits, minAddress, modAddress, address, i);
      }
      hits := hits + [address];
      count := counter[index];
      BucketIsOwnCountIff(hits, minAddress, modAddress, address);
      if AllAligned(hits, minAddress, modAddress) {
        assert (hits[|hits| - 1] - minAddress) % modAddress == 0;
        BucketIsOwnCount(hits, minAddress, modAddress, address);
      }
    }
  }

  /** One more address: the least divisor goes down to its own least, if that is lower. */
  lemma {:induction false} SeesDivisor(seen: seq<nat>, address: nat, was: nat, now: nat)
    requires 2 <= now <= was <= UNSEEN && 2 <= address <= UNSEEN
    requires seen == [] ==> was == UNSEEN
    requires seen != [] ==> IsLeastDivisor(was, seen)
    requires forall j :: 2 <= j < now ==> !Divides(j, address)
    requires now == was || Divides(now, address)
    ensures IsLeastDivisor(now, seen + [address])
  {
    var all := seen + [address];
    assert address in all && Divides(address, address);
    forall i, a | 2 <= i < now && a in all ensures !Divides(i, a) {
    }
    if seen == [] {
      assert address >= now;
      assert Divides(now, address);
    } else if now == was {
      var a :| a in seen && Divides(was, a);
      assert a in all;
    }
  }
}
