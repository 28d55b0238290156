/**
 The privacy budget ledger: what each caller has spent of each budget. Amounts are reals: rounding
 is not modelled.
 */
module Budget {
  import opened Wrappers

  const TOLERANCE: real := 0.000000000001

  /** Between a budget's name and a caller's in the ledger's keys. */
  const UNIT_SEPARATOR: char := '\U{1f}'

  datatype Charge = Charge(budget: string, epsilon: real)

  datatype Exhausted = Exhausted(budget: string)

  function Key(budget: string, caller: string): string {
    budget + [UNIT_SEPARATOR] + caller
  }

  /** With no separator in the budget's name, a key names one budget and one caller. */
  lemma KeyNames(b: string, c: string, b': string, c': string)
    requires UNIT_SEPARATOR !in b && UNIT_SEPARATOR !in b'
    ensures Key(b, c) == Key(b', c') <==> b == b' && c == c'
  {
    var s := Key(b, c);
    if s == Key(b', c') {
      assert s[|b|] == UNIT_SEPARATOR && s[|b'|] == UNIT_SEPARATOR;
      assert forall i :: 0 <= i < |b| ==> s[i] == b[i];
      assert forall i :: 0 <= i < |b'| ==> s[i] == b'[i];
      assert |b| == |b'|;
      assert b == s[..|b|] && b' == s[..|b|] && c == s[|b| + 1..] && c' == s[|b| + 1..];
    }
  }

  function Amount(m: map<string, real>, k: string, otherwise: real): real {
    if k in m then m[k] else otherwise
  }

  function SpentOf(spent: map<string, real>, budget: string, caller: string): real {
    Amount(spent, Key(budget, caller), 0.0)
  }

  /** What a query spends of one budget. */
  function SumFor(charges: seq<Charge>, budget: string): real {
    if charges == [] then 0.0
    else (if charges[0].budget == budget then charges[0].epsilon else 0.0) + SumFor(charges[1..], budget)
  }

  lemma {:induction false} SumForMore(charges: seq<Charge>, c: Charge, budget: string)
    ensures SumFor(charges + [c], budget) == SumFor(charges, budget) + (if c.budget == budget then c.epsilon else 0.0)
  {
    if charges == [] {
      assert charges + [c] == [c] && [c][1..] == [];
    } else {
      assert (charges + [c])[1..] == charges[1..] + [c];
      SumForMore(charges[1..], c, budget);
    }
  }

  lemma {:induction false} SumForOne(charges: seq<Charge>, i: nat)
    requires i < |charges| && forall j, k :: 0 <= j < k < |charges| ==> charges[j].budget != charges[k].budget
    ensures SumFor(charges, charges[i].budget) == charges[i].epsilon
  {
    if i == 0 {
      SumForNone(charges[1..], charges[0].budget);
    } else {
      SumForOne(charges[1..], i - 1);
    }
  }

  lemma {:induction false} SumForNone(charges: seq<Charge>, budget: string)
    requires forall j :: 0 <= j < |charges| ==> charges[j].budget != budget
    ensures SumFor(charges, budget) == 0.0
  {
    if charges != [] {
      SumForNone(charges[1..], budget);
    }
  }

  /** A query's charges as they were accepted, with its caller. */
  datatype Accepted = Accepted(caller: string, charges: seq<Charge>)

  /** What the queries accepted so far spent. */
  function Spends(log: seq<Accepted>, budget: string, caller: string): real {
    if log == [] then 0.0
    else
      var last := log[|log| - 1];
      Spends(log[..|log| - 1], budget, caller) + (if last.caller == caller then SumFor(last.charges, budget) else 0.0)
  }

  ghost predicate Plain(charges: seq<Charge>) {
    forall i :: 0 <= i < |charges| ==> UNIT_SEPARATOR !in charges[i].budget
  }

  ghost predicate OncePerBudget(charges: seq<Charge>) {
    forall i, j :: 0 <= i < j < |charges| ==> charges[i].budget != charges[j].budget
  }

  class BudgetStore {
    var limits: map<string, real>
    var spent: map<string, real>
    const defaultLimit: real
    const permissive: bool
    /** Every query accepted, in order. */
    ghost var log: seq<Accepted>

    /** Each caller has spent of each budget exactly what the accepted queries charged. */
    ghost predicate Valid()
      reads this
    {
      forall b: string, c: string :: UNIT_SEPARATOR !in b ==> SpentOf(spent, b, c) == Spends(log, b, c)
    }

    constructor (defaultLimit: real, permissive: bool)
      ensures Valid() && log == [] && this.defaultLimit == defaultLimit && this.permissive == permissive
      ensures forall b: string :: Limit(b) == defaultLimit
      ensures forall b: string, c: string :: SpentOf(spent, b, c) == 0.0
    {
      this.defaultLimit, this.permissive := defaultLimit, permissive;
      limits, spent, log := map[], map[], [];
    }

    function Limit(budget: string): real
      reads this
    {
      Amount(limits, budget, defaultLimit)
    }

    method SetLimit(budget: string, epsilon: real)
      requires Valid()
      modifies this`limits
      ensures Valid() && Limit(budget) == epsilon && forall b :: b != budget ==> Limit(b) == old(Limit(b))
    {
      limits := limits[budget := epsilon];
    }

    /** The charge would leave more spent than the limit and the tolerance. */
    predicate Over(caller: string, c: Charge)
      reads this
    {
      SpentOf(spent, c.budget, caller) + c.epsilon > Limit(c.budget) + TOLERANCE
    }

    /** The first charge that is over, as the ledger stands. */
    method FirstOver(caller: string, charges: seq<Charge>) returns (r: Option<string>)
      ensures r.Some? <==> !permissive && exists i :: 0 <= i < |charges| && Over(caller, charges[i])
      ensures r.Some? ==> exists i :: 0 <= i < |charges| && r.value == charges[i].budget && Over(caller, charges[i])
                                      && forall j :: 0 <= j < i ==> !Over(caller, charges[j])
    {
      for i := 0 to |charges|
        invariant permissive || forall j :: 0 <= j < i ==> !Over(caller, charges[j])
      {
        if !permissive && Over(caller, charges[i]) {
          return Some(charges[i].budget);
        }
      }
      r := None;
    }

    method PayOne(caller: string, charge: Charge)
      requires UNIT_SEPARATOR !in charge.budget
      modifies this`spent
      ensures forall b: string, c: string :: UNIT_SEPARATOR !in b ==>
                SpentOf(spent, b, c) == SpentOf(old(spent), b, c)
                  + (if b == charge.budget && c == caller then charge.epsilon else 0.0)
    {
      var k := Key(charge.budget, caller);
      forall b: string, other: string | UNIT_SEPARATOR !in b
        ensures Key(b, other) == k <==> b == charge.budget && other == caller
      {
        KeyNames(b, other, charge.budget, caller);
      }
      spent := spent[k := SpentOf(spent, charge.budget, caller) + charge.epsilon];
    }

    /** Adds the charges to the ledger; `left` is the remainder by budget, never below zero. */
    method Pay(caller: string, charges: seq<Charge>) returns (left: map<string, real>)
      requires Plain(charges)
      modifies this`spent
      ensures forall b: string, c: string :: UNIT_SEPARATOR !in b ==>
                SpentOf(spent, b, c) == SpentOf(old(spent), b, c) + (if c == caller then SumFor(charges, b) else 0.0)
      ensures forall b :: b in left <==> exists i :: 0 <= i < |charges| && charges[i].budget == b
      ensures forall b :: b in left ==>
                left[b] == if SpentOf(spent, b, caller) >= Limit(b) then 0.0 else Limit(b) - SpentOf(spent, b, caller)
    {
      left := map[];
      assert charges[..0] == [] && forall b: string :: SumFor([], b) == 0.0;
      for i := 0 to |charges|
        invariant forall b: string, c: string :: UNIT_SEPARATOR !in b ==>
                    SpentOf(spent, b, c) ==
                      SpentOf(old(spent), b, c) + (if c == caller then SumFor(charges[..i], b) else 0.0)
        invariant forall b :: b in left <==> exists j :: 0 <= j < i && charges[j].budget == b
        invariant forall b :: b in left ==> left[b] == AtLeastZero(Limit(b) - SpentOf(spent, b, caller))
      {
        var c := charges[i];
        assert charges[..i + 1] == charges[..i] + [c];
        forall b: string
          ensures SumFor(charges[..i + 1], b) == SumFor(charges[..i], b) + (if c.budget == b then c.epsilon else 0.0)
        {
          SumForMore(charges[..i], c, b);
        }
        assert forall b :: b in left ==> UNIT_SEPARATOR !in b;
        PayOne(caller, c);
        left := left[c.budget := AtLeastZero(Limit(c.budget) - SpentOf(spent, c.budget, caller))];
      }
      assert charges[..|charges|] == charges;
    }

    /** A query's charges are accepted together or not at all: refused exactly when one charge, by itself,
        would go over, and then nothing changes. A budget is left within its limit and the tolerance
        exactly when all the query's charges to it fit together; with each budget charged once they
        always do, however often it is charged. */
    method ChargeAll(caller: string, charges: seq<Charge>) returns (r: Result<map<string, real>, Exhausted>)
      requires Valid() && Plain(charges)
      modifies this`spent, this`log
      ensures Valid()
      ensures r.Err? <==> !permissive
                          && exists i :: 0 <= i < |charges|
                                         && old(SpentOf(spent, charges[i].budget, caller)) + charges[i].epsilon
                                            > Limit(charges[i].budget) + 0.000000000001
      ensures r.Err? ==> spent == old(spent) && log == old(log)
      ensures r.Err? ==> exists i :: 0 <= i < |charges| && r.error == Exhausted(charges[i].budget)
                                     && old(Over(caller, charges[i]))
                                     && forall j :: 0 <= j < i ==> !old(Over(caller, charges[j]))
      ensures r.Ok? ==> log == old(log) + [Accepted(caller, charges)]
      ensures r.Ok? ==> forall b :: b in r.value <==> exists i :: 0 <= i < |charges| && charges[i].budget == b
      ensures r.Ok? ==> forall b :: b in r.value ==>
                r.value[b] ==
                if SpentOf(spent, b, caller) >= Limit(b) then 0.0 else Limit(b) - SpentOf(spent, b, caller)
      ensures r.Ok? && !permissive && OncePerBudget(charges) ==>
                forall i :: 0 <= i < |charges| ==>
                  SpentOf(spent, charges[i].budget, caller) <= Limit(charges[i].budget) + TOLERANCE
      ensures r.Ok? ==> forall i :: 0 <= i < |charges| ==>
                var b := charges[i].budget;
                SpentOf(spent, b, caller) <= Limit(b) + TOLERANCE <==>
                old(SpentOf(spent, b, caller)) + SumFor(charges, b) <= Limit(b) + TOLERANCE
      ensures r.Ok? ==> forall i :: 0 <= i < |charges| ==>
                SpentOf(spent, charges[i].budget, caller) ==
                  old(SpentOf(spent, charges[i].budget, caller)) + SumFor(charges, charges[i].budget)
    {
      var over := FirstOver(caller, charges);
      if over.Some? {
        return Err(Exhausted(over.value));
      }
      ghost var was := spent;
      var left := Pay(caller, charges);
      if OncePerBudget(charges) {
        forall i | 0 <= i < |charges| && !permissive
          ensures SpentOf(spent, charges[i].budget, caller) <= Limit(charges[i].budget) + TOLERANCE
        {
          SumForOne(charges, i);
          assert !old(Over(caller, charges[i]));
        }
      }
      log := log + [Accepted(caller, charges)];
      assert log[..|log| - 1] == old(log);
      r := Ok(left);
    }
  }

  function AtLeastZero(x: real): real {
    if x < 0.0 then 0.0 else x
  }

  /** A query that names a budget twice is checked as if each charge were alone: both pass where one
      fits, and the budget is left over its limit by the second. */
  method TwiceOver(limit: real) returns (store: BudgetStore, r: Result<map<string, real>, Exhausted>)
    requires limit > TOLERANCE
    ensures fresh(store) && store.Valid() && !store.permissive && r.Ok?
    ensures SpentOf(store.spent, "b", "c") == 2.0 * limit > store.Limit("b") + TOLERANCE
  {
    store := new BudgetStore(limit, false);
    var charges := [Charge("b", limit), Charge("b", limit)];
    assert SpentOf(store.spent, "b", "c") == Spends([], "b", "c") == 0.0;
    assert forall i :: 0 <= i < 2 ==> !store.Over("c", charges[i]);
    assert charges[1..][1..] == [];
    assert SumFor(charges, "b") == charges[0].epsilon + SumFor(charges[1..], "b");
    assert SumFor(charges[1..], "b") == limit + SumFor([], "b");
    r := store.ChargeAll("c", charges);
    assert charges[0].budget == "b";
  }
}
