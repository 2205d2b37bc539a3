/** A customer's addresses and the default among them (addresses/addresses.service.ts).

    Addresses are only marked deleted, so an address is named by its position, and a later position is a
    later creation.
 */
module Addresses {
  import opened Wrappers

  datatype Address = Address(customerId: string, isDefault: bool, deleted: bool)

  datatype Error = AddressNotFound

  predicate LiveOf(a: Address, customerId: string) {
    a.customerId == customerId && !a.deleted
  }

  predicate Owned(table: seq<Address>, id: nat, customerId: string) {
    id < |table| && LiveOf(table[id], customerId)
  }

  /** `updateMany({ customerId, isDefault: true }, { isDefault: false })` */
  function ClearDefaults(table: seq<Address>, customerId: string): (cleared: seq<Address>)
    ensures |cleared| == |table|
  {
    seq(|table|, i requires 0 <= i < |table| =>
      if table[i].customerId == customerId then table[i].(isDefault := false) else table[i])
  }

  predicate HasLive(table: seq<Address>, customerId: string) {
    exists i | 0 <= i < |table| :: LiveOf(table[i], customerId)
  }

  function Create(table: seq<Address>, customerId: string, isDefault: bool): seq<Address> {
    var makeDefault := isDefault || !HasLive(table, customerId);
    (if makeDefault then ClearDefaults(table, customerId) else table) + [Address(customerId, makeDefault, false)]
  }

  function MakeDefault(table: seq<Address>, customerId: string, id: nat): seq<Address>
    requires id < |table|
  {
    var cleared := ClearDefaults(table, customerId);
    cleared[id := cleared[id].(isDefault := true)]
  }

  function Update(table: seq<Address>, customerId: string, id: nat, isDefault: Option<bool>)
    : Result<seq<Address>, Error>
  {
    if !Owned(table, id, customerId) then Failure(AddressNotFound)
    else if isDefault == Some(true) then Success(MakeDefault(table, customerId, id))
    else Success(table)
  }

  function SetDefault(table: seq<Address>, customerId: string, id: nat): Result<seq<Address>, Error> {
    if !Owned(table, id, customerId) then Failure(AddressNotFound)
    else Success(MakeDefault(table, customerId, id))
  }

  /** The live address created last among the first `n`. */
  function NewestLive(table: seq<Address>, customerId: string, n: nat): (newest: Option<nat>)
    requires n <= |table|
    ensures newest.Some? ==> newest.value < n && LiveOf(table[newest.value], customerId)
    ensures newest.Some? ==> forall i | newest.value < i < n :: !LiveOf(table[i], customerId)
    ensures newest.None? ==> forall i | 0 <= i < n :: !LiveOf(table[i], customerId)
  {
    if n == 0 then None
    else if LiveOf(table[n - 1], customerId) then Some(n - 1)
    else NewestLive(table, customerId, n - 1)
  }

  function Remove(table: seq<Address>, customerId: string, id: nat): Result<seq<Address>, Error> {
    if !Owned(table, id, customerId) then Failure(AddressNotFound)
    else
      var removed := table[id := table[id].(deleted := true, isDefault := false)];
      var next := NewestLive(removed, customerId, |removed|);
      if table[id].isDefault && next.Some? then
        Success(removed[next.value := removed[next.value].(isDefault := true)])
      else Success(removed)
  }

  // ---- runs ----

  datatype Op =
    | DoCreate(customerId: string, isDefault: bool)
    | DoUpdate(customerId: string, id: nat, makeDefault: Option<bool>)
    | DoSetDefault(customerId: string, id: nat)
    | DoRemove(customerId: string, id: nat)

  function OrElse(result: Result<seq<Address>, Error>, table: seq<Address>): seq<Address> {
    if result.Success? then result.value else table
  }

  function Apply(table: seq<Address>, op: Op): seq<Address> {
    match op
    case DoCreate(customerId, isDefault) => Create(table, customerId, isDefault)
    case DoUpdate(customerId, id, makeDefault) => OrElse(Update(table, customerId, id, makeDefault), table)
    case DoSetDefault(customerId, id) => OrElse(SetDefault(table, customerId, id), table)
    case DoRemove(customerId, id) => OrElse(Remove(table, customerId, id), table)
  }

  function Run(table: seq<Address>, ops: seq<Op>): seq<Address>
    decreases |ops|
  {
    if ops == [] then table else Run(Apply(table, ops[0]), ops[1..])
  }

  predicate IsTheDefault(table: seq<Address>, customerId: string, d: nat) {
    && Owned(table, d, customerId) && table[d].isDefault
    && forall i | 0 <= i < |table| && table[i].customerId == customerId && table[i].isDefault :: i == d
  }

  /** One default for whoever has a live address, none for anybody else, and never a deleted one. */
  ghost predicate DefaultsOk(table: seq<Address>) {
    && (forall a | a in table && a.isDefault :: !a.deleted)
    && forall c: string | HasLive(table, c) :: exists d: nat :: IsTheDefault(table, c, d)
  }

  lemma {:induction false} OtherCustomersKeepTheirDefault(table: seq<Address>, after: seq<Address>, c: string)
    requires DefaultsOk(table) && |table| <= |after|
    requires forall i | 0 <= i < |table| :: after[i].customerId == table[i].customerId
    requires forall i | 0 <= i < |table| && table[i].customerId == c :: after[i] == table[i]
    requires forall i | |table| <= i < |after| :: after[i].customerId != c
    ensures HasLive(after, c) ==> exists d: nat :: IsTheDefault(after, c, d)
  {
    if HasLive(after, c) {
      assert HasLive(table, c);
      var d: nat :| IsTheDefault(table, c, d);
      assert IsTheDefault(after, c, d);
    }
  }

  lemma CreateKeepsDefaults(table: seq<Address>, customerId: string, isDefault: bool)
    requires DefaultsOk(table)
    ensures DefaultsOk(Create(table, customerId, isDefault))
  {
    var after := Create(table, customerId, isDefault);
    forall c: string | HasLive(after, c) ensures exists d: nat :: IsTheDefault(after, c, d) {
      if c != customerId {
        OtherCustomersKeepTheirDefault(table, after, c);
      } else if isDefault || !HasLive(table, customerId) {
        assert IsTheDefault(after, c, |table|);
      } else {
        var d: nat :| IsTheDefault(table, c, d);
        assert IsTheDefault(after, c, d);
      }
    }
    forall a | a in after && a.isDefault ensures !a.deleted {
      var i :| 0 <= i < |after| && after[i] == a;
      assert i < |table| ==> table[i] in table;
    }
  }

  lemma MakeDefaultKeepsDefaults(table: seq<Address>, customerId: string, id: nat)
    requires DefaultsOk(table) && Owned(table, id, customerId)
    ensures DefaultsOk(MakeDefault(table, customerId, id))
    ensures IsTheDefault(MakeDefault(table, customerId, id), customerId, id)
  {
    var after := MakeDefault(table, customerId, id);
    forall c: string | HasLive(after, c) ensures exists d: nat :: IsTheDefault(after, c, d) {
      if c != customerId {
        OtherCustomersKeepTheirDefault(table, after, c);
      } else {
        assert IsTheDefault(after, c, id);
      }
    }
    forall a | a in after && a.isDefault ensures !a.deleted {
      var i :| 0 <= i < |after| && after[i] == a;
      assert table[i] in table;
    }
  }

  /** Removing the default passes it to the newest live address; removing another leaves it where it is. */
  lemma RemovalPassesOnTheDefault(table: seq<Address>, customerId: string, id: nat)
    requires DefaultsOk(table) && Owned(table, id, customerId)
    ensures var after := Remove(table, customerId, id);
      after.Success? && !Survives(after.value, id) &&
      forall d: nat :: IsTheDefault(after.value, customerId, d) <==>
        if table[id].isDefault then NewestLive(after.value, customerId, |after.value|) == Some(d)
        else IsTheDefault(table, customerId, d)
  {
    var after := Remove(table, customerId, id).value;
    var removed := table[id := table[id].(deleted := true, isDefault := false)];
    assert HasLive(table, customerId);
    var held: nat :| IsTheDefault(table, customerId, held);
    if table[id].isDefault {
      assert held == id;
      SameLiveSameNewest(removed, after, customerId, |removed|);
      var next := NewestLive(removed, customerId, |removed|);
      forall d: nat ensures IsTheDefault(after, customerId, d) <==> next == Some(d) {
        if next.Some? {
          assert Owned(after, next.value, customerId) && after[next.value].isDefault;
        }
      }
    }
  }

  predicate Survives(table: seq<Address>, id: nat) {
    id < |table| && (table[id].isDefault || !table[id].deleted)
  }

  lemma SameLiveSameNewest(a: seq<Address>, b: seq<Address>, customerId: string, n: nat)
    requires n <= |a| == |b|
    requires forall i | 0 <= i < |a| :: LiveOf(a[i], customerId) == LiveOf(b[i], customerId)
    ensures NewestLive(a, customerId, n) == NewestLive(b, customerId, n)
  {
  }

  lemma RemoveKeepsDefaults(table: seq<Address>, customerId: string, id: nat)
    requires DefaultsOk(table) && Owned(table, id, customerId)
    ensures DefaultsOk(Remove(table, customerId, id).value)
  {
    var after := Remove(table, customerId, id).value;
    RemovalPassesOnTheDefault(table, customerId, id);
    forall c: string | HasLive(after, c) ensures exists d: nat :: IsTheDefault(after, c, d) {
      if c != customerId {
        OtherCustomersKeepTheirDefault(table, after, c);
      } else if table[id].isDefault {
        assert IsTheDefault(after, c, NewestLive(after, c, |after|).value);
      } else {
        assert HasLive(table, c);
        var d: nat :| IsTheDefault(table, c, d);
        assert IsTheDefault(after, c, d);
      }
    }
    forall a | a in after && a.isDefault ensures !a.deleted {
      var i :| 0 <= i < |after| && after[i] == a;
      assert table[i] in table;
    }
  }

  lemma StepKeepsDefaults(table: seq<Address>, op: Op)
    requires DefaultsOk(table)
    ensures DefaultsOk(Apply(table, op))
  {
    match op
    case DoCreate(customerId, isDefault) => CreateKeepsDefaults(table, customerId, isDefault);
    case DoUpdate(customerId, id, _) =>
      if Owned(table, id, customerId) {
        MakeDefaultKeepsDefaults(table, customerId, id);
      }
    case DoSetDefault(customerId, id) =>
      if Owned(table, id, customerId) {
        MakeDefaultKeepsDefaults(table, customerId, id);
      }
    case DoRemove(customerId, id) =>
      if Owned(table, id, customerId) {
        RemoveKeepsDefaults(table, customerId, id);
      }
  }

  lemma {:induction false} RunKeepsDefaults(table: seq<Address>, ops: seq<Op>)
    requires DefaultsOk(table)
    ensures DefaultsOk(Run(table, ops))
    decreases |ops|
  {
    if ops != [] {
      StepKeepsDefaults(table, ops[0]);
      RunKeepsDefaults(Apply(table, ops[0]), ops[1..]);
    }
  }

  /** After any calls by any customers: whoever has a live address has exactly one default, and it is live. */
  lemma ExactlyOneDefault(ops: seq<Op>, customerId: string)
    ensures var table := Run([], ops);
      && (forall i | 0 <= i < |table| && table[i].isDefault :: !table[i].deleted)
      && (HasLive(table, customerId) ==> exists d: nat :: IsTheDefault(table, customerId, d))
  {
    RunKeepsDefaults([], ops);
  }

  // ---- what each call leaves ----

  predicate OthersUntouched(table: seq<Address>, after: seq<Address>, customerId: string) {
    && |table| <= |after|
    && forall i | 0 <= i < |table| && table[i].customerId != customerId :: after[i] == table[i]
  }

  predicate SameRows(table: seq<Address>, after: seq<Address>) {
    && |after| == |table|
    && forall i | 0 <= i < |table| :: after[i].customerId == table[i].customerId && after[i].deleted == table[i].deleted
  }

  /** A new address is live and the customer's own; it is the default if asked for or the first one, and otherwise
      the default stays where it was. */
  lemma AddressIsCreated(table: seq<Address>, customerId: string, isDefault: bool)
    requires DefaultsOk(table)
    ensures var after, n := Apply(table, DoCreate(customerId, isDefault)), |table|;
      && |after| == n + 1 && OthersUntouched(table, after, customerId) && SameRows(table, after[..n])
      && LiveOf(after[n], customerId)
      && (isDefault || !HasLive(table, customerId) ==> IsTheDefault(after, customerId, n))
      && (!isDefault && HasLive(table, customerId) ==>
            forall d: nat :: IsTheDefault(after, customerId, d) <==> IsTheDefault(table, customerId, d))
  {
    var after := Create(table, customerId, isDefault);
    if !isDefault && HasLive(table, customerId) {
      assert after == table + [Address(customerId, false, false)];
      var held: nat :| IsTheDefault(table, customerId, held);
      assert IsTheDefault(after, customerId, held);
    }
  }

  /** Asking for an own live address makes it the default; asking for any other changes nothing. */
  lemma DefaultIsSet(table: seq<Address>, customerId: string, id: nat)
    requires DefaultsOk(table)
    ensures var after := Apply(table, DoSetDefault(customerId, id));
      && SameRows(table, after) && OthersUntouched(table, after, customerId)
      && (id < |table| && LiveOf(table[id], customerId) ==> IsTheDefault(after, customerId, id))
      && (!(id < |table| && LiveOf(table[id], customerId)) ==> after == table)
  {
    if Owned(table, id, customerId) {
      MakeDefaultKeepsDefaults(table, customerId, id);
    }
  }

  /** An update moves the default here if it says so, and never away. */
  lemma AddressIsUpdated(table: seq<Address>, customerId: string, id: nat, makeDefault: Option<bool>)
    requires DefaultsOk(table)
    ensures Apply(table, DoUpdate(customerId, id, makeDefault)) ==
      if makeDefault == Some(true) then Apply(table, DoSetDefault(customerId, id)) else table
  {
  }

  /** A removed address is deleted; nobody else's rows and no other address's life are touched. */
  lemma AddressIsRemoved(table: seq<Address>, customerId: string, id: nat)
    requires DefaultsOk(table)
    ensures var after := Apply(table, DoRemove(customerId, id));
      && |after| == |table| && OthersUntouched(table, after, customerId)
      && (forall i | 0 <= i < |table| && i != id ::
            after[i].deleted == table[i].deleted && after[i].customerId == table[i].customerId)
      && (id < |table| && LiveOf(table[id], customerId) ==> after[id] == Address(customerId, false, true))
      && (!(id < |table| && LiveOf(table[id], customerId)) ==> after == table)
  {
  }

  // ---- the service ----

  class AddressesService {
    var table: seq<Address>

    constructor ()
      ensures table == [] && DefaultsOk(table)
    {
      table := [];
    }

    method Unset(customerId: string)
      modifies this
      ensures table == ClearDefaults(old(table), customerId)
    {
      var i := 0;
      while i < |table|
        invariant 0 <= i <= |table| == |old(table)|
        invariant forall k | i <= k < |table| :: table[k] == old(table)[k]
        invariant forall k | 0 <= k < i :: table[k] == ClearDefaults(old(table), customerId)[k]
      {
        if table[i].customerId == customerId && table[i].isDefault {
          table := table[i := table[i].(isDefault := false)];
        }
        i := i + 1;
      }
      assert table == ClearDefaults(old(table), customerId);
    }

    method CreateAddress(customerId: string, isDefault: bool)
      requires DefaultsOk(table)
      modifies this
      ensures table == Create(old(table), customerId, isDefault)
      ensures DefaultsOk(table)
    {
      StepKeepsDefaults(table, DoCreate(customerId, isDefault));
      var makeDefault := isDefault || !HasLive(table, customerId);
      if makeDefault {
        Unset(customerId);
      }
      table := table + [Address(customerId, makeDefault, false)];
    }

    method UpdateAddress(customerId: string, id: nat, isDefault: Option<bool>) returns (thrown: Option<Error>)
      requires DefaultsOk(table)
      modifies this
      ensures table == OrElse(Update(old(table), customerId, id, isDefault), old(table))
      ensures thrown.Some? <==> Update(old(table), customerId, id, isDefault).Failure?
      ensures DefaultsOk(table)
    {
      StepKeepsDefaults(table, DoUpdate(customerId, id, isDefault));
      if !Owned(table, id, customerId) {
        return Some(AddressNotFound);
      }
      if isDefault == Some(true) {
        Unset(customerId);
        table := table[id := table[id].(isDefault := true)];
      }
      return None;
    }

    method SetDefaultAddress(customerId: string, id: nat) returns (thrown: Option<Error>)
      requires DefaultsOk(table)
      modifies this
      ensures table == OrElse(SetDefault(old(table), customerId, id), old(table))
      ensures thrown.Some? <==> SetDefault(old(table), customerId, id).Failure?
      ensures DefaultsOk(table)
    {
      StepKeepsDefaults(table, DoSetDefault(customerId, id));
      if !Owned(table, id, customerId) {
        return Some(AddressNotFound);
      }
      Unset(customerId);
      table := table[id := table[id].(isDefault := true)];
      return None;
    }

    method RemoveAddress(customerId: string, id: nat) returns (thrown: Option<Error>)
      requires DefaultsOk(table)
      modifies this
      ensures table == OrElse(Remove(old(table), customerId, id), old(table))
      ensures thrown.Some? <==> Remove(old(table), customerId, id).Failure?
      ensures DefaultsOk(table)
    {
      StepKeepsDefaults(table, DoRemove(customerId, id));
      if !Owned(table, id, customerId) {
        return Some(AddressNotFound);
      }
      var current := table[id];
      table := table[id := current.(deleted := true, isDefault := false)];
      if current.isDefault {
        var next := NewestLive(table, customerId, |table|);
        if next.Some? {
          table := table[next.value := table[next.value].(isDefault := true)];
        }
      }
      return None;
    }
  }
}
