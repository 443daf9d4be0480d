/** The monthly token budgets that the import keeps in step with the imported calls and
    ledger entries: each record is charged by the difference to what it was charged before. */
module TokenBudget {
  import opened Options

  datatype Budget = Budget(reserved: int, charged: int)

  /** The stored payload of an imported record. A legacy call without a creation time has no
      month. */
  datatype Payload =
    | Call(input: int, output: int, billed: Option<string>)
    | Entry(status: string, month: string, reserved: int, charged: int)

  datatype Source = LegacyCall(id: string) | LedgerEntry(id: string)

  type Budgets = map<string, Budget>
  type Manifests = map<Source, Payload>

  function Plus(a: Budget, b: Budget): Budget {
    Budget(a.reserved + b.reserved, a.charged + b.charged)
  }

  function Minus(a: Budget, b: Budget): Budget {
    Budget(a.reserved - b.reserved, a.charged - b.charged)
  }

  function Of(budgets: Budgets, month: string): Budget {
    if month in budgets then budgets[month] else Budget(0, 0)
  }

  datatype Amount = Amount(month: string, reserved: int, charged: int)

  /** A payload that the import accepts: a used call is dated, a ledger amount is not negative. */
  predicate Acceptable(p: Payload) {
    match p
    case Call(input, output, billed) => input + output > 0 ==> billed.Some?
    case Entry(_, _, reserved, charged) => reserved >= 0 && charged >= 0
  }

  /** import_sqlite._legacy_usage and _ledger_amounts. */
  function AmountOf(p: Payload): (amount: Option<Amount>)
    requires Acceptable(p)
    ensures amount.Some? ==> amount.value.reserved >= 0 && amount.value.charged >= 0
  {
    match p
    case Call(input, output, billed) =>
      if input + output <= 0 then None else Some(Amount(billed.value, 0, input + output))
    case Entry(status, month, reserved, charged) =>
      Some(Amount(month, if status == "pending" then reserved else 0, charged))
  }

  /** What a record contributes to a month. */
  function Share(p: Payload, month: string): Budget {
    if Acceptable(p) && AmountOf(p).Some? && AmountOf(p).value.month == month
    then Budget(AmountOf(p).value.reserved, AmountOf(p).value.charged)
    else Budget(0, 0)
  }

  function ShareOf(p: Option<Payload>, month: string): Budget {
    if p.Some? then Share(p.value, month) else Budget(0, 0)
  }

  /** The sum of the shares of all records. */
  ghost function Total(manifests: Manifests, month: string): Budget {
    if manifests == map[] then Budget(0, 0)
    else
      var k :| k in manifests;
      Plus(Total(manifests - {k}, month), Share(manifests[k], month))
  }

  lemma TotalChooses(manifests: Manifests, month: string) returns (c: Source)
    requires manifests != map[]
    ensures c in manifests && Total(manifests, month) == Plus(Total(manifests - {c}, month), Share(manifests[c], month))
  {
    hide Share, Plus;
    c :| c in manifests && Total(manifests, month) == Plus(Total(manifests - {c}, month), Share(manifests[c], month));
  }

  /** The sum does not depend on the order in which the records are taken. */
  lemma {:induction false} TotalWithout(manifests: Manifests, month: string, k: Source)
    requires k in manifests
    ensures Total(manifests, month) == Plus(Total(manifests - {k}, month), Share(manifests[k], month))
    decreases |manifests|
  {
    hide Share, Total;
    var c := TotalChooses(manifests, month);
    if c != k {
      Smaller(manifests, c);
      Smaller(manifests, k);
      TotalWithout(manifests - {c}, month, k);
      TotalWithout(manifests - {k}, month, c);
      assert manifests - {c} - {k} == manifests - {k} - {c};
    }
  }

  lemma Smaller(manifests: Manifests, k: Source)
    requires k in manifests
    ensures |manifests - {k}| < |manifests|
  {
    assert (manifests - {k}).Keys == manifests.Keys - {k};
    assert |manifests - {k}| == |(manifests - {k}).Keys| && |manifests| == |manifests.Keys|;
  }

  lemma {:induction false} TotalNonNegative(manifests: Manifests, month: string)
    ensures Total(manifests, month).reserved >= 0 && Total(manifests, month).charged >= 0
    decreases |manifests|
  {
    if k :| k in manifests {
      ShareNonNegative(Some(manifests[k]), month);
      Smaller(manifests, k);
      hide Total, Share;
      TotalWithout(manifests, month, k);
      TotalNonNegative(manifests - {k}, month);
    }
  }

  /** Each month holds what other writers put there and the shares of all imported records. */
  ghost predicate Balanced(budgets: Budgets, manifests: Manifests, base: Budgets) {
    forall month :: Of(budgets, month) == Plus(Of(base, month), Total(manifests, month))
  }

  ghost predicate NonNegative(base: Budgets) {
    forall month :: Of(base, month).reserved >= 0 && Of(base, month).charged >= 0
  }

  /** The change that replacing one payload by another makes to a month. */
  function Delta(was: Option<Payload>, now: Option<Payload>, month: string): Budget {
    Minus(ShareOf(now, month), ShareOf(was, month))
  }

  lemma TotalPut(manifests: Manifests, month: string, k: Source, p: Payload)
    ensures Total(manifests[k := p], month)
      == Plus(Total(manifests, month), Delta(if k in manifests then Some(manifests[k]) else None, Some(p), month))
  {
    hide Share;
    TotalWithout(manifests[k := p], month, k);
    assert manifests[k := p] - {k} == manifests - {k};
    if k in manifests {
      TotalWithout(manifests, month, k);
    } else {
      assert manifests - {k} == manifests;
    }
  }

  predicate Underflows(budgets: Budgets, was: Option<Payload>, now: Option<Payload>, month: string, legacy: bool) {
    var delta := Delta(was, now, month);
    delta != Budget(0, 0)
    && (Of(budgets, month).charged + delta.charged < 0 || (!legacy && Of(budgets, month).reserved + delta.reserved < 0))
  }

  lemma ShareOfAmount(p: Option<Payload>, month: string)
    requires p.Some? ==> Acceptable(p.value)
    ensures ShareOf(p, month) == if p.Some? && AmountOf(p.value).Some? && AmountOf(p.value).value.month == month
                                 then Budget(AmountOf(p.value).value.reserved, AmountOf(p.value).value.charged)
                                   else Budget(0, 0)
  {
  }

  /** The dictionary of changes, and the months in the order in which they entered it. */
  method Changes(was: Option<Payload>, now: Option<Payload>) returns (changes: Budgets, months: seq<string>)
    requires (was.Some? ==> Acceptable(was.value)) && (now.Some? ==> Acceptable(now.value))
    ensures forall month :: Of(changes, month) == Delta(was, now, month)
    ensures forall month :: month in months <==> month in changes
    ensures forall i, j :: 0 <= i < j < |months| ==> months[i] != months[j]
  {
    changes, months := map[], [];
    if was.Some? && AmountOf(was.value).Some? {
      var a := AmountOf(was.value).value;
      changes := changes[a.month := Budget(-a.reserved, -a.charged)];
      months := [a.month];
    }
    if now.Some? && AmountOf(now.value).Some? {
      var a := AmountOf(now.value).value;
      var previous := Of(changes, a.month);
      if a.month !in changes {
        months := months + [a.month];
      }
      changes := changes[a.month := Plus(previous, Budget(a.reserved, a.charged))];
    }
    hide AmountOf, Acceptable, ShareOf;
    forall month ensures Of(changes, month) == Delta(was, now, month) {
      ShareOfAmount(was, month);
      ShareOfAmount(now, month);
    }
  }

  lemma OfPut(budgets: Budgets, month: string, value: Budget)
    ensures Of(budgets[month := value], month) == value
    ensures forall m :: m != month ==> Of(budgets[month := value], m) == Of(budgets, m)
  {
  }

  /** import_sqlite._adjust_legacy_budget and _adjust_ledger_budget, inside a transaction: no
      result means the error that rolls the transaction back. */
  method Adjust(budgets: Budgets, was: Option<Payload>, now: Option<Payload>, legacy: bool)
    returns (adjusted: Option<Budgets>)
    requires (was.Some? ==> Acceptable(was.value)) && (now.Some? ==> Acceptable(now.value))
    ensures adjusted == None <==> exists month :: Underflows(budgets, was, now, month, legacy)
    ensures adjusted.Some? ==>
      forall month :: Of(adjusted.value, month) == Plus(Of(budgets, month), Delta(was, now, month))
  {
    hide Delta, Acceptable, Of, Plus, Applied;
    var changes, months := Changes(was, now);
    var next := budgets;
    NoneApplied(budgets, was, now);
    assert months[..0] == [];
    for i := 0 to |months|
      invariant forall j :: 0 <= j < i ==> !Underflows(budgets, was, now, months[j], legacy)
      invariant Applied(budgets, next, months[..i], was, now)
    {
      var month := months[i];
      var delta := changes[month];
      DeltaOfChange(changes, month, was, now);
      assert month !in months[..i] && months[..i + 1] == months[..i] + [month];
      NotYetApplied(budgets, next, months[..i], month, was, now);
      if delta != Budget(0, 0) {
        var current := Of(next, month);
        if current.charged + delta.charged < 0 || (!legacy && current.reserved + delta.reserved < 0) {
          assert Underflows(budgets, was, now, month, legacy);
          return None;
        }
        OneMoreApplied(budgets, next, Plus(current, delta), months[..i], month, was, now);
        next := next[month := Plus(current, delta)];
      } else {
        NothingApplied(budgets, next, months[..i], month, was, now);
      }
    }
    assert months[..|months|] == months;
    forall month
      ensures !Underflows(budgets, was, now, month, legacy)
        && Of(next, month) == Plus(Of(budgets, month), Delta(was, now, month))
    {
      MonthSettled(budgets, next, changes, months, was, now, month, legacy);
    }
    return Some(next);
  }

  lemma MonthSettled(budgets: Budgets, next: Budgets, changes: Budgets, months: seq<string>, was: Option<Payload>,
                     now: Option<Payload>,
                     month: string, legacy: bool)
    requires Applied(budgets, next, months, was, now) && (month in months <==> month in changes)
    requires Of(changes, month) == Delta(was, now, month)
    requires forall j :: 0 <= j < |months| ==> !Underflows(budgets, was, now, months[j], legacy)
    ensures !Underflows(budgets, was, now, month, legacy)
      && Of(next, month) == Plus(Of(budgets, month), Delta(was, now, month))
  {
    hide Delta, Of, Plus;
    if month in months {
      var j :| 0 <= j < |months| && months[j] == month;
    } else {
      NoChange(changes, month);
      PlusNothing(Of(budgets, month));
    }
  }

  /** The changes of these months have been made. */
  ghost predicate Applied(budgets: Budgets, next: Budgets, months: seq<string>, was: Option<Payload>,
                          now: Option<Payload>) {
    (forall month :: month in months ==> Of(next, month) == Plus(Of(budgets, month), Delta(was, now, month)))
    && forall month :: month !in months ==> Of(next, month) == Of(budgets, month)
  }

  lemma NoneApplied(budgets: Budgets, was: Option<Payload>, now: Option<Payload>)
    ensures Applied(budgets, budgets, [], was, now)
  {
  }

  lemma NotYetApplied(budgets: Budgets, next: Budgets, months: seq<string>, month: string, was: Option<Payload>,
                      now: Option<Payload>)
    requires Applied(budgets, next, months, was, now) && month !in months
    ensures Of(next, month) == Of(budgets, month)
  {
    hide Delta, Of, Plus;
  }

  lemma NothingApplied(budgets: Budgets, next: Budgets, months: seq<string>, month: string, was: Option<Payload>,
                       now: Option<Payload>)
    requires Applied(budgets, next, months, was, now) && month !in months && Delta(was, now, month) == Budget(0, 0)
    ensures Applied(budgets, next, months + [month], was, now)
  {
    hide Delta, Of, Plus;
    PlusNothing(Of(budgets, month));
  }

  lemma OneMoreApplied(budgets: Budgets, next: Budgets, value: Budget, months: seq<string>, month: string,
                       was: Option<Payload>, now: Option<Payload>)
    requires Applied(budgets, next, months, was, now) && value == Plus(Of(budgets, month), Delta(was, now, month))
    ensures Applied(budgets, next[month := value], months + [month], was, now)
  {
    hide Delta, Of, Plus;
    OfPut(next, month, value);
  }

  lemma NoChange(changes: Budgets, month: string)
    requires month !in changes
    ensures Of(changes, month) == Budget(0, 0)
  {
  }

  lemma DeltaOfChange(changes: Budgets, month: string, was: Option<Payload>, now: Option<Payload>)
    requires month in changes && forall m :: Of(changes, m) == Delta(was, now, m)
    ensures changes[month] == Delta(was, now, month)
  {
    assert Of(changes, month) == changes[month];
  }

  lemma PlusNothing(a: Budget)
    ensures Plus(a, Budget(0, 0)) == a
  {
  }

  /** A balanced state never underflows: what is taken back was put in before. */
  lemma NoUnderflow(budgets: Budgets, manifests: Manifests, base: Budgets, k: Source, now: Option<Payload>,
                    month: string, legacy: bool)
    requires Balanced(budgets, manifests, base) && NonNegative(base)
    ensures !Underflows(budgets, if k in manifests then Some(manifests[k]) else None, now, month, legacy)
  {
    hide Total, Share, ShareOf, Of, Acceptable;
    var was := if k in manifests then Some(manifests[k]) else None;
    ShareNonNegative(now, month);
    Contained(manifests, month, k);
    BaseNonNegative(base, month);
    BalancedAt(budgets, manifests, base, month);
    hide Balanced, NonNegative;
  }

  lemma BalancedAt(budgets: Budgets, manifests: Manifests, base: Budgets, month: string)
    requires Balanced(budgets, manifests, base)
    ensures Of(budgets, month) == Plus(Of(base, month), Total(manifests, month))
  {
    hide Total, Of, Plus;
  }

  lemma BaseNonNegative(base: Budgets, month: string)
    requires NonNegative(base)
    ensures Of(base, month).reserved >= 0 && Of(base, month).charged >= 0
  {
    hide Of;
  }

  /** A record's share is part of the sum. */
  lemma Contained(manifests: Manifests, month: string, k: Source)
    ensures var share := ShareOf(if k in manifests then Some(manifests[k]) else None, month);
      0 <= share.reserved <= Total(manifests, month).reserved && 0 <= share.charged <= Total(manifests, month).charged
  {
    hide Total, Share;
    TotalNonNegative(manifests, month);
    if k in manifests {
      TotalWithout(manifests, month, k);
      TotalNonNegative(manifests - {k}, month);
      ShareNonNegative(Some(manifests[k]), month);
    }
  }

  lemma ShareNonNegative(p: Option<Payload>, month: string)
    ensures ShareOf(p, month).reserved >= 0 && ShareOf(p, month).charged >= 0
  {
  }

  lemma NothingImported(existing: Budgets)
    ensures Balanced(existing, map[], existing)
  {
    hide Of;
  }

  datatype Written = Unchanged | Changed | Undated | Underflow

  class TokenStore {
    var budgets: Budgets
    var manifests: Manifests
    /** What writers other than the import have put into each month. */
    ghost var base: Budgets

    ghost predicate Valid() reads this {
      Balanced(budgets, manifests, base) && NonNegative(base) && forall k :: k in manifests ==> Acceptable(manifests[k])
    }

    constructor (existing: Budgets)
      requires NonNegative(existing)
      ensures Valid() && manifests == map[] && budgets == base == existing
    {
      budgets, manifests, base := existing, map[], existing;
      NothingImported(existing);
      hide Balanced, NonNegative, Acceptable;
    }

    /** The transaction that imports one record: budget and record change together or not at
        all. `matches` says whether the target row still is what the record maps to. */
    method Put(k: Source, p: Payload, matches: bool) returns (written: Written)
      requires Valid() && (p.Entry? ==> Acceptable(p))
      modifies this`budgets, this`manifests
      ensures Valid() && written != Underflow
      ensures written == Undated <==> !Acceptable(p)
      ensures written == Undated || written == Unchanged ==> manifests == old(manifests) && budgets == old(budgets)
      ensures written == Unchanged || written == Changed ==> manifests == old(manifests)[k := p]
    {
      hide Acceptable, Balanced, NonNegative;
      var was := if k in manifests then Some(manifests[k]) else None;
      if !Acceptable(p) {
        return Undated;
      }
      if was == Some(p) && matches {
        assert manifests[k := p] == manifests;
        return Unchanged;
      }
      forall month ensures !Underflows(budgets, was, Some(p), month, k.LegacyCall?) {
        NoUnderflow(budgets, manifests, base, k, Some(p), month, k.LegacyCall?);
      }
      var adjusted := Adjust(budgets, was, Some(p), k.LegacyCall?);
      if adjusted == None {
        return Underflow;
      }
      PutBalances(budgets, adjusted.value, manifests, base, k, p);
      budgets := adjusted.value;
      manifests := manifests[k := p];
      return Changed;
    }

    /** The transaction of the deletion pass for a record that left the source. */
    method Remove(k: Source) returns (written: Written)
      requires Valid() && k in manifests
      modifies this`budgets, this`manifests
      ensures Valid() && written == Changed && manifests == old(manifests) - {k}
    {
      hide Acceptable, Balanced, NonNegative;
      forall month ensures !Underflows(budgets, Some(manifests[k]), None, month, k.LegacyCall?) {
        NoUnderflow(budgets, manifests, base, k, None, month, k.LegacyCall?);
      }
      var adjusted := Adjust(budgets, Some(manifests[k]), None, k.LegacyCall?);
      if adjusted == None {
        return Underflow;
      }
      RemoveBalances(budgets, adjusted.value, manifests, base, k);
      budgets := adjusted.value;
      manifests := manifests - {k};
      return Changed;
    }

    /** Another writer reserves, settles or charges within its own part of a month. */
    method OtherWriter(month: string, reserved: int, charged: int)
      requires Valid() && Of(base, month).reserved + reserved >= 0 && Of(base, month).charged + charged >= 0
      modifies this`budgets, this`base
      ensures Valid() && base == old(base)[month := Plus(Of(old(base), month), Budget(reserved, charged))]
    {
      hide Acceptable, Total, Of;
      BaseChanges(budgets, manifests, base, month, Budget(reserved, charged));
      budgets := budgets[month := Plus(Of(budgets, month), Budget(reserved, charged))];
      base := base[month := Plus(Of(base, month), Budget(reserved, charged))];
    }
  }

  lemma BaseChanges(budgets: Budgets, manifests: Manifests, base: Budgets, month: string, delta: Budget)
    requires Balanced(budgets, manifests, base) && NonNegative(base)
    requires Of(base, month).reserved + delta.reserved >= 0 && Of(base, month).charged + delta.charged >= 0
    ensures Balanced(budgets[month := Plus(Of(budgets, month), delta)], manifests,
                     base[month := Plus(Of(base, month), delta)])
    ensures NonNegative(base[month := Plus(Of(base, month), delta)])
  {
    hide Total, Of;
    OfPut(budgets, month, Plus(Of(budgets, month), delta));
    OfPut(base, month, Plus(Of(base, month), delta));
    assert Of(budgets, month) == Plus(Of(base, month), Total(manifests, month));
  }

  lemma PutBalances(budgets: Budgets, adjusted: Budgets, manifests: Manifests, base: Budgets, k: Source, p: Payload)
    requires Balanced(budgets, manifests, base)
    requires forall month ::
      Of(adjusted, month)
        == Plus(Of(budgets, month), Delta(if k in manifests then Some(manifests[k]) else None, Some(p), month))
    ensures Balanced(adjusted, manifests[k := p], base)
  {
    hide Of, Share, Total;
    forall month
      ensures Of(adjusted, month) == Plus(Of(base, month), Total(manifests[k := p], month))
    {
      TotalPut(manifests, month, k, p);
    }
  }

  lemma RemoveBalances(budgets: Budgets, adjusted: Budgets, manifests: Manifests, base: Budgets, k: Source)
    requires Balanced(budgets, manifests, base) && k in manifests
    requires forall month :: Of(adjusted, month) == Plus(Of(budgets, month), Delta(Some(manifests[k]), None, month))
    ensures Balanced(adjusted, manifests - {k}, base)
  {
    hide Of, Share, Total;
    forall month
      ensures Of(adjusted, month) == Plus(Of(base, month), Total(manifests - {k}, month))
    {
      TotalWithout(manifests, month, k);
    }
  }

  /** A source file: each record once, all of one kind. */
  ghost predicate SourceFile(records: seq<(Source, Payload)>, ledger: bool) {
    (forall i :: 0 <= i < |records| ==>
       records[i].0.LedgerEntry? == records[i].1.Entry? == ledger
       && (records[i].1.Entry? ==> Acceptable(records[i].1)))
    && forall i, j :: 0 <= i < j < |records| ==> records[i].0 != records[j].0
  }

  /** The records of the other kind are those of before. */
  ghost predicate OthersKept(before: Manifests, after: Manifests, ledger: bool) {
    forall k: Source :: k.LedgerEntry? != ledger ==>
      (k in after <==> k in before) && (k in after ==> after[k] == before[k])
  }

  ghost predicate AllWritten(manifests: Manifests, records: seq<(Source, Payload)>, n: nat)
    requires n <= |records|
  {
    forall j :: 0 <= j < n ==> records[j].0 in manifests && manifests[records[j].0] == records[j].1
  }

  predicate Recorded(records: seq<(Source, Payload)>, k: Source) {
    exists i :: 0 <= i < |records| && records[i].0 == k
  }

  lemma RecordedAt(records: seq<(Source, Payload)>, i: nat)
    requires i < |records|
    ensures Recorded(records, records[i].0)
  {
  }

  /** No used call is undated. */
  ghost predicate AllDated(records: seq<(Source, Payload)>) {
    forall i :: 0 <= i < |records| ==> Acceptable(records[i].1)
  }

  lemma PutSize(manifests: Manifests, k: Source, p: Payload)
    ensures |manifests[k := p]| <= |manifests| + 1
  {
    assert manifests[k := p].Keys == manifests.Keys + {k};
    assert |manifests[k := p]| == |manifests[k := p].Keys| && |manifests| == |manifests.Keys|;
  }

  lemma RemoveSize(manifests: Manifests, gone: set<Source>)
    ensures |manifests - gone| <= |manifests|
    ensures gone <= manifests.Keys ==> |gone| <= |manifests|
  {
    var left := manifests - gone;
    assert left.Keys == manifests.Keys - gone;
    assert |left| == |left.Keys| && |manifests| == |manifests.Keys|;
    KeySize(left.Keys, manifests.Keys);
    if gone <= manifests.Keys {
      KeySize(gone, manifests.Keys);
    }
  }

  lemma KeySize(a: set<Source>, b: set<Source>)
    requires a <= b
    ensures |a| <= |b|
  {
    assert b == a + (b - a);
  }

  /** The scan over the source: one transaction for each record, as many as the process survives. */
  method PutRecords(store: TokenStore, records: seq<(Source, Payload)>, ledger: bool, survives: nat)
    returns (complete: bool)
    requires store.Valid() && SourceFile(records, ledger)
    modifies store
    ensures store.Valid() && OthersKept(old(store.manifests), store.manifests, ledger)
    ensures complete ==> AllWritten(store.manifests, records, |records|)
    ensures complete <==> survives >= |records| && AllDated(records)
    ensures |store.manifests| <= |old(store.manifests)| + |records|
    ensures forall k :: k in store.manifests ==> k in old(store.manifests) || Recorded(records, k)
  {
    hide Acceptable, TokenStore.Valid;
    ghost var before := store.manifests;
    for i := 0 to |records|
      invariant store.Valid() && OthersKept(before, store.manifests, ledger) && AllWritten(store.manifests, records, i)
      invariant i <= survives && forall j :: 0 <= j < i ==> Acceptable(records[j].1)
      invariant |store.manifests| <= |before| + i
      invariant forall k :: k in store.manifests ==> k in before || Recorded(records, k)
    {
      LetOthersWrite(store);
      if i == survives {
        return false;
      }
      PutSize(store.manifests, records[i].0, records[i].1);
      var matches: bool := *;
      var written := store.Put(records[i].0, records[i].1, matches);
      if written == Undated {
        return false;
      }
    }
    return true;
  }

  /** The deletion pass over the records that left the source. */
  method RemoveRecords(store: TokenStore, gone: set<Source>, ledger: bool, survives: nat) returns (complete: bool)
    requires store.Valid() && gone <= store.manifests.Keys && forall k :: k in gone ==> k.LedgerEntry? == ledger
    modifies store
    ensures store.Valid() && OthersKept(old(store.manifests), store.manifests, ledger)
    ensures complete ==> store.manifests == old(store.manifests) - gone
    ensures complete <==> survives >= |gone|
    ensures |store.manifests| <= |old(store.manifests)|
  {
    hide Acceptable, TokenStore.Valid;
    ghost var before := store.manifests;
    var left := gone;
    while left != {}
      invariant store.Valid() && left <= gone && store.manifests == before - (gone - left)
      invariant |gone| - |left| <= survives
    {
      LetOthersWrite(store);
      RemoveSize(before, gone - left);
      if |gone| - |left| == survives {
        return false;
      }
      var k :| k in left;
      var written := store.Remove(k);
      left := left - {k};
    }
    RemoveSize(before, gone);
    return true;
  }

  /** One complete pass over a source of calls (import_backup) or of ledger entries
      (_import_ai_ledger): the records are written one transaction each, then those that left
      the source are removed. The process survives a given number of transactions, and other
      writers may run between any two; whatever happened, each month holds the other writers'
      part plus one share per current record. A process that survives them all completes unless
      a used call is undated. */
  method ImportRecords(store: TokenStore, records: seq<(Source, Payload)>, ledger: bool, survives: nat)
    returns (complete: bool, left: nat)
    requires store.Valid() && SourceFile(records, ledger)
    modifies store
    ensures store.Valid() && OthersKept(old(store.manifests), store.manifests, ledger)
    ensures complete ==> AllDated(records)
    ensures AllDated(records) && survives >= |records| + |old(store.manifests)| ==> complete
    ensures complete ==> survives <= left + |records| + |old(store.manifests)|
    ensures |store.manifests| <= |old(store.manifests)| + |records|
    ensures complete ==>
      (forall i :: 0 <= i < |records| ==>
         records[i].0 in store.manifests && store.manifests[records[i].0] == records[i].1)
      && forall k :: k in store.manifests && k.LedgerEntry? == ledger ==> Recorded(records, k)
  {
    hide *;
    ghost var before := store.manifests;
    complete := PutRecords(store, records, ledger, survives);
    if !complete {
      return false, 0;
    }
    ghost var written := store.manifests;
    var gone := set k | k in store.manifests && k.LedgerEntry? == ledger && !Recorded(records, k);
    RemoveSize(before, gone);
    PassEnds(written, written - gone, gone, records, ledger);
    complete := RemoveRecords(store, gone, ledger, survives - |records|);
    KeptThrough(before, written, store.manifests, ledger);
    left := if complete then survives - |records| - |gone| else 0;
  }

  lemma KeptThrough(before: Manifests, written: Manifests, after: Manifests, ledger: bool)
    requires OthersKept(before, written, ledger) && OthersKept(written, after, ledger)
    ensures OthersKept(before, after, ledger)
  {
  }

  /** What a complete pass leaves of its kind is what the records say. */
  lemma PassEnds(written: Manifests, after: Manifests, gone: set<Source>,
                 records: seq<(Source, Payload)>, ledger: bool)
    requires after == written - gone && AllWritten(written, records, |records|)
    requires gone == set k | k in written && k.LedgerEntry? == ledger && !Recorded(records, k)
    ensures forall i :: 0 <= i < |records| ==> records[i].0 in after && after[records[i].0] == records[i].1
    ensures forall k :: k in after && k.LedgerEntry? == ledger ==> Recorded(records, k)
  {
    forall i | 0 <= i < |records| ensures Recorded(records, records[i].0) {
      RecordedAt(records, i);
    }
    hide Recorded;
  }

  /** Any number of other writers, each within its own part. */
  method LetOthersWrite(store: TokenStore)
    requires store.Valid()
    modifies store`budgets, store`base
    ensures store.Valid()
  {
    hide *;
    var more: int := *;
    while more > 0
      invariant store.Valid()
    {
      var month: string := *;
      var reserved: int := *;
      var charged: int := *;
      if reserved >= 0 && charged >= 0 {
        BaseOf(store, month);
        store.OtherWriter(month, reserved, charged);
      }
      more := more - 1;
    }
  }

  lemma BaseOf(store: TokenStore, month: string)
    requires store.Valid()
    ensures Of(store.base, month).reserved >= 0 && Of(store.base, month).charged >= 0
  {
    hide Balanced;
    BaseNonNegative(store.base, month);
  }

  // ---- Any number of imports ------------------------------------------------------------------------

  /** A backup: its calls and its ledger entries. */
  datatype Backup = Backup(calls: seq<(Source, Payload)>, entries: seq<(Source, Payload)>)

  /** What the first n records contribute to a month. */
  function SharesTo(records: seq<(Source, Payload)>, month: string, n: nat): Budget
    requires n <= |records|
  {
    if n == 0 then Budget(0, 0) else Plus(SharesTo(records, month, n - 1), Share(records[n - 1].1, month))
  }

  function SharesOf(backup: Backup, month: string): Budget {
    Plus(SharesTo(backup.calls, month, |backup.calls|), SharesTo(backup.entries, month, |backup.entries|))
  }

  ghost predicate BackupOk(backup: Backup) {
    SourceFile(backup.calls, false) && SourceFile(backup.entries, true)
  }

  /** The manifests of one kind are exactly the records. */
  ghost predicate Mirrors(manifests: Manifests, records: seq<(Source, Payload)>, ledger: bool) {
    AllWritten(manifests, records, |records|)
    && forall k :: k in manifests && k.LedgerEntry? == ledger ==> exists i :: 0 <= i < |records| && records[i].0 == k
  }

  /** The manifests are exactly the records, each of which occurs once. */
  ghost predicate Listed(manifests: Manifests, records: seq<(Source, Payload)>) {
    (forall i, j :: 0 <= i < j < |records| ==> records[i].0 != records[j].0)
      && AllWritten(manifests, records, |records|)
    && forall k :: k in manifests ==> exists i :: 0 <= i < |records| && records[i].0 == k
  }

  lemma NothingListed(manifests: Manifests)
    requires Listed(manifests, [])
    ensures manifests == map[]
  {
  }

  lemma ListedWithoutLast(manifests: Manifests, records: seq<(Source, Payload)>)
    requires Listed(manifests, records) && records != []
    ensures var front, last := records[..|records| - 1], records[|records| - 1];
      last.0 in manifests && manifests[last.0] == last.1 && Listed(manifests - {last.0}, front)
  {
    var front, last := records[..|records| - 1], records[|records| - 1];
    forall k | k in manifests - {last.0} ensures exists i :: 0 <= i < |front| && front[i].0 == k {
      var i :| 0 <= i < |records| && records[i].0 == k;
      assert front[i] == records[i];
    }
  }

  lemma {:induction false} TotalOfRecords(manifests: Manifests, records: seq<(Source, Payload)>, month: string)
    requires Listed(manifests, records)
    ensures Total(manifests, month) == SharesTo(records, month, |records|)
    decreases |records|
  {
    hide Share, Listed;
    if records == [] {
      NothingListed(manifests);
    } else {
      hide Total;
      var front, last := records[..|records| - 1], records[|records| - 1];
      ListedWithoutLast(manifests, records);
      TotalWithout(manifests, month, last.0);
      TotalOfRecords(manifests - {last.0}, front, month);
      SharesAgree(front, records, month, |front|);
    }
  }

  lemma {:induction false} SharesAgree(a: seq<(Source, Payload)>, b: seq<(Source, Payload)>, month: string, n: nat)
    requires n <= |a| && n <= |b| && forall i :: 0 <= i < n ==> a[i] == b[i]
    ensures SharesTo(a, month, n) == SharesTo(b, month, n)
  {
    if n > 0 {
      SharesAgree(a, b, month, n - 1);
    }
  }

  lemma {:induction false} SharesJoin(a: seq<(Source, Payload)>, b: seq<(Source, Payload)>, month: string, n: nat)
    requires n <= |b|
    ensures SharesTo(a + b, month, |a| + n) == Plus(SharesTo(a, month, |a|), SharesTo(b, month, n))
  {
    hide Share;
    if n == 0 {
      SharesAgree(a, a + b, month, |a|);
    } else {
      SharesJoin(a, b, month, n - 1);
    }
  }

  /** The total over the manifests of a whole backup is the plain sum over its records. */
  lemma TotalOfBackup(manifests: Manifests, backup: Backup, month: string)
    requires BackupOk(backup) && Mirrors(manifests, backup.calls, false) && Mirrors(manifests, backup.entries, true)
    ensures Total(manifests, month) == SharesOf(backup, month)
  {
    hide Total, SharesTo, Acceptable;
    var all := backup.calls + backup.entries;
    forall k | k in manifests ensures exists i :: 0 <= i < |all| && all[i].0 == k {
      if k.LedgerEntry? {
        var i :| 0 <= i < |backup.entries| && backup.entries[i].0 == k;
        assert all[|backup.calls| + i] == backup.entries[i];
      } else {
        var i :| 0 <= i < |backup.calls| && backup.calls[i].0 == k;
        assert all[i] == backup.calls[i];
      }
    }
    TotalOfRecords(manifests, all, month);
    SharesJoin(backup.calls, backup.entries, month, |backup.entries|);
  }

  lemma MirrorStays(before: Manifests, after: Manifests, records: seq<(Source, Payload)>, ledger: bool)
    requires SourceFile(records, ledger) && Mirrors(before, records, ledger) && OthersKept(before, after, !ledger)
    ensures Mirrors(after, records, ledger)
  {
    hide Acceptable;
  }

  // The figures of a backup's records, by what each of them says.

  /** Tokens used by the dated calls and charged by the entries of a month. */
  function ChargedTo(records: seq<(Source, Payload)>, month: string, n: nat): int
    requires n <= |records|
  {
    if n == 0 then 0
    else
      var charged := match records[n - 1].1
        case Call(input, output, billed) => if billed == Some(month) && input + output > 0 then input + output else 0
        case Entry(_, due, _, charged) => if due == month then charged else 0;
      ChargedTo(records, month, n - 1) + charged
  }

  /** What the entries of a month that are still pending reserve. */
  function ReservedTo(records: seq<(Source, Payload)>, month: string, n: nat): int
    requires n <= |records|
  {
    if n == 0 then 0
    else
      var p := records[n - 1].1;
      ReservedTo(records, month, n - 1)
      + if p.Entry? && p.month == month && p.status == "pending" then p.reserved else 0
  }

  lemma {:induction false} SharesAreFigures(records: seq<(Source, Payload)>, month: string, n: nat)
    requires n <= |records| && forall i :: 0 <= i < |records| && records[i].1.Entry? ==> Acceptable(records[i].1)
    ensures SharesTo(records, month, n) == Budget(ReservedTo(records, month, n), ChargedTo(records, month, n))
  {
    if n > 0 {
      SharesAreFigures(records, month, n - 1);
    }
  }

  /** What a backup says about a month. */
  function Says(backup: Backup, month: string): Budget {
    var calls, entries := backup.calls, backup.entries;
    Budget(ReservedTo(calls, month, |calls|) + ReservedTo(entries, month, |entries|),
           ChargedTo(calls, month, |calls|) + ChargedTo(entries, month, |entries|))
  }

  lemma SharesSay(backup: Backup, month: string)
    requires BackupOk(backup)
    ensures SharesOf(backup, month) == Says(backup, month)
  {
    hide Acceptable;
    SharesAreFigures(backup.calls, month, |backup.calls|);
    SharesAreFigures(backup.entries, month, |backup.entries|);
  }

  /** One start of the import: on which backup, and how many transactions the process survives. */
  datatype Run = Run(backup: Backup, survives: nat)

  function RecordCount(runs: seq<Run>, n: nat): nat
    requires n <= |runs|
  {
    if n == 0 then 0
    else RecordCount(runs, n - 1) + |runs[n - 1].backup.calls| + |runs[n - 1].backup.entries|
  }

  /** Any number of imports, of whatever backups, each possibly cut short anywhere. Once the last
      one is complete, as it is when its process survives long enough and no used call is
      undated, every month holds what the other writers put there plus exactly what the records
      of the last backup say, however often any of them was imported. */
  method ImportRepeatedly(store: TokenStore, runs: seq<Run>) returns (complete: bool)
    requires store.Valid() && runs != [] && forall i :: 0 <= i < |runs| ==> BackupOk(runs[i].backup)
    modifies store
    ensures store.Valid()
    ensures complete ==> AllDated(runs[|runs| - 1].backup.calls)
    ensures AllDated(runs[|runs| - 1].backup.calls)
      && runs[|runs| - 1].survives >= 2 * (|old(store.manifests)| + RecordCount(runs, |runs|))
      ==> complete
    ensures complete ==>
      forall month ::
        Of(store.budgets, month) == Plus(Of(store.base, month), Says(runs[|runs| - 1].backup, month))
  {
    hide *;
    complete := false;
    ghost var size := |store.manifests|;
    NoRecords(runs);
    for i := 0 to |runs|
      invariant store.Valid() && |store.manifests| <= size + RecordCount(runs, i)
      invariant complete ==>
        i > 0 && Mirrors(store.manifests, runs[i - 1].backup.calls, false)
          && Mirrors(store.manifests, runs[i - 1].backup.entries, true) && AllDated(runs[i - 1].backup.calls)
      invariant i > 0 && AllDated(runs[i - 1].backup.calls)
        && runs[i - 1].survives >= 2 * (size + RecordCount(runs, i))
        ==> complete
    {
      var backup := runs[i].backup;
      BackupMeans(backup);
      MoreRecords(runs, i);
      var left;
      complete, left := ImportRecords(store, backup.calls, false, runs[i].survives);
      if complete {
        MirrorsMeans(store.manifests, backup.calls, false);
        ghost var calls := store.manifests;
        complete, left := ImportRecords(store, backup.entries, true, left);
        if complete {
          MirrorsMeans(store.manifests, backup.entries, true);
          MirrorStays(calls, store.manifests, backup.calls, false);
        }
      }
    }
    if complete {
      var last := runs[|runs| - 1].backup;
      forall month ensures Of(store.budgets, month) == Plus(Of(store.base, month), Says(last, month)) {
        TotalOfBackup(store.manifests, last, month);
        SharesSay(last, month);
        StoreBalanced(store, month);
      }
    }
  }

  lemma NoRecords(runs: seq<Run>)
    ensures RecordCount(runs, 0) == 0
  {
  }

  lemma MoreRecords(runs: seq<Run>, n: nat)
    requires n < |runs|
    ensures RecordCount(runs, n + 1)
      == RecordCount(runs, n) + |runs[n].backup.calls| + |runs[n].backup.entries|
  {
  }

  lemma BackupMeans(backup: Backup)
    requires BackupOk(backup)
    ensures SourceFile(backup.calls, false) && SourceFile(backup.entries, true) && AllDated(backup.entries)
  {
    hide Acceptable;
  }

  lemma MirrorsMeans(manifests: Manifests, records: seq<(Source, Payload)>, ledger: bool)
    requires forall i :: 0 <= i < |records| ==> records[i].0 in manifests && manifests[records[i].0] == records[i].1
    requires forall k :: k in manifests && k.LedgerEntry? == ledger ==> Recorded(records, k)
    ensures Mirrors(manifests, records, ledger)
  {
  }

  lemma StoreBalanced(store: TokenStore, month: string)
    requires store.Valid()
    ensures Of(store.budgets, month) == Plus(Of(store.base, month), Total(store.manifests, month))
  {
    hide Acceptable, NonNegative;
    BalancedAt(store.budgets, store.manifests, store.base, month);
  }
}
