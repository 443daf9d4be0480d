/** The pacer of the upload: it spends request units no faster than its rate, over any
    stretch of batches. */
module UploadPacing {
  import opened RealArithmetic

  /** A batch is charged when the clock shows `now`; its estimated request units are `units`. */
  datatype Charge = Charge(now: real, units: nat)

  function CeilingKiB(size: nat): nat {
    (size + 1023) / 1024
  }

  function Units(sizes: seq<nat>): (units: nat)
    ensures units >= |sizes|
  {
    if sizes == [] then 0
    else
      var last := CeilingKiB(sizes[|sizes| - 1]);
      Units(sizes[..|sizes| - 1]) + if last < 1 then 1 else last
  }

  function Estimate(sizes: seq<nat>, indexed: bool): nat {
    Units(sizes) * (if indexed then 8 else 1) + 10
  }

  /** How long the rate takes to pay for the units. */
  function Duration(units: nat, rate: int): real
    requires rate > 0
  {
    units as real / rate as real
  }

  /** When the units charged so far are paid off. */
  function PaidAt(start: real, charges: seq<Charge>, rate: int): real
    requires rate > 0
  {
    if charges == [] then start
    else
      var last := charges[|charges| - 1];
      Max(last.now, PaidAt(start, charges[..|charges| - 1], rate)) + Duration(last.units, rate)
  }

  function Charged(charges: seq<Charge>): nat {
    if charges == [] then 0 else Charged(charges[..|charges| - 1]) + charges[|charges| - 1].units
  }

  /** The units charged from the i-th batch on fit into the time from that batch's charge to
      the moment the pacer lets the last batch go. */
  lemma {:induction false} RateBound(start: real, charges: seq<Charge>, rate: int, i: nat)
    requires rate > 0 && i < |charges|
    ensures Duration(Charged(charges[i..]), rate) <= PaidAt(start, charges, rate) - charges[i].now
  {
    hide Duration;
    var front, last := charges[..|charges| - 1], charges[|charges| - 1];
    var tail := charges[i..];
    assert tail[..|tail| - 1] == front[i..] && tail[|tail| - 1] == last;
    QuotientAdds(Charged(front[i..]), last.units, rate);
    if i < |front| {
      RateBound(start, front, rate, i);
    } else {
      assert front[i..] == [];
      NothingCharged(rate);
    }
  }

  lemma NothingCharged(rate: int)
    requires rate > 0
    ensures Duration(0, rate) == 0.0
  {
  }

  lemma QuotientAdds(a: nat, b: nat, rate: int)
    requires rate > 0
    ensures Duration(a + b, rate) == Duration(a, rate) + Duration(b, rate)
  {
  }

  /** The units of a batch, row by row: every row costs at least one. */
  method RowUnits(sizes: seq<nat>) returns (units: nat)
    ensures units == Units(sizes)
  {
    units := 0;
    for k := 0 to |sizes|
      invariant units == Units(sizes[..k])
    {
      assert sizes[..k + 1][..k] == sizes[..k];
      var size := CeilingKiB(sizes[k]);
      units := units + if size < 1 then 1 else size;
    }
    assert sizes[..|sizes|] == sizes;
  }

  /** An indexed table writes every row eight times over. */
  method Estimated(units: nat, sizes: seq<nat>, indexed: bool) returns (estimated: nat)
    requires units == Units(sizes)
    ensures estimated == Estimate(sizes, indexed)
  {
    hide Units;
    estimated := units * (if indexed then 8 else 1) + 10;
  }

  class Pacer {
    const rate: int
    const start: real
    var nextAt: real
    ghost var charges: seq<Charge>

    ghost predicate Valid() reads this {
      rate > 0 && nextAt == PaidAt(start, charges, rate)
    }

    constructor (ruPerSecond: int, now: real)
      requires ruPerSecond > 0
      ensures Valid() && rate == ruPerSecond && charges == []
    {
      rate, start, nextAt, charges := ruPerSecond, now, now, [];
    }

    /** upload_ydb_snapshot._Pacer.wait: how long to sleep before the batch is sent. */
    method Wait(now: real, sizes: seq<nat>, indexed: bool) returns (pause: real)
      requires Valid()
      modifies this
      ensures Valid() && charges == old(charges) + [Charge(now, Estimate(sizes, indexed))]
      ensures pause >= 0.0 && now + pause >= nextAt
      ensures forall i :: 0 <= i < |charges| ==>
        Duration(Charged(charges[i..]), rate) <= now + pause - charges[i].now
    {
      hide Units, Charged, Estimate, Duration;
      var units := RowUnits(sizes);
      var estimated := Estimated(units, sizes, indexed);
      charges := charges + [Charge(now, estimated)];
      assert charges[..|charges| - 1] == old(charges);
      nextAt := Max(now, nextAt) + Duration(estimated, rate);
      pause := Max(0.0, nextAt - now);
      forall i | 0 <= i < |charges|
        ensures Duration(Charged(charges[i..]), rate) <= now + pause - charges[i].now
      {
        RateBound(start, charges, rate, i);
      }
    }
  }
}
