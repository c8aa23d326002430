/** The single-pass join of sorted vehicles with sorted fuel rows. */
module MergeJoin {
  import opened Wrappers
  import opened Order
  import opened Upstream

  const MAX_FUEL_ENTRIES := 3

  datatype ExportStatus = Complete | NoFuelData | FuelUnavailable

  datatype WidenedRow = WidenedRow(vehicle: VehicleRow, fuels: seq<FuelRow>, status: ExportStatus)

  datatype JoinError =
    | MissingVehicleKenteken
    | MissingFuelKenteken
    | MissingVolgnummer(kenteken: string)
    | UnsortedVehicles(kenteken: string)
    | UnsortedFuel(kenteken: string)
    | FuelInversion(kenteken: string, expected: nat, actual: nat)
    | TooManyFuelEntries(kenteken: string)

  // ----- What the join means: for each vehicle, all fuel rows of its plate

  function FuelOf(fuel: seq<FuelRow>, k: string): seq<FuelRow> {
    if fuel == [] then []
    else (if fuel[0].kenteken == Some(k) then [fuel[0]] else []) + FuelOf(fuel[1..], k)
  }

  function StatusOf(fuels: seq<FuelRow>, fetchFailed: bool): ExportStatus {
    if fetchFailed then FuelUnavailable else if fuels == [] then NoFuelData else Complete
  }

  function JoinRow(v: VehicleRow, fuel: seq<FuelRow>, fetchFailed: bool): WidenedRow
    requires v.kenteken.Some?
  {
    var fuels := FuelOf(fuel, v.kenteken.value);
    WidenedRow(v, fuels, StatusOf(fuels, fetchFailed))
  }

  function NestedLoopJoin(vehicles: seq<VehicleRow>, fuel: seq<FuelRow>, fetchFailed: bool): seq<WidenedRow>
    requires Register(vehicles)
  {
    seq(|vehicles|, i requires 0 <= i < |vehicles| => JoinRow(vehicles[i], fuel, fetchFailed))
  }

  /** What a row says of its vehicle: all its fuel rows and no others, whether
      the fetch failed, and if not whether there are any. */
  predicate TellsTheTruth(row: WidenedRow, fuel: seq<FuelRow>, fetchFailed: bool) {
    && (forall g :: g in row.fuels ==> g in fuel && g.kenteken == row.vehicle.kenteken)
    && (forall g :: g in fuel && g.kenteken == row.vehicle.kenteken ==> g in row.fuels)
    && (row.status == FuelUnavailable <==> fetchFailed)
    && (row.status == NoFuelData <==> !fetchFailed && forall g :: g in fuel ==> g.kenteken != row.vehicle.kenteken)
    && (row.status == Complete <==> !fetchFailed && exists g :: g in fuel && g.kenteken == row.vehicle.kenteken)
  }

  lemma {:induction false} FuelOfMembers(fuel: seq<FuelRow>, k: string)
    ensures forall g :: g in FuelOf(fuel, k) <==> g in fuel && g.kenteken == Some(k)
  {
    if fuel != [] {
      FuelOfMembers(fuel[1..], k);
      assert fuel == [fuel[0]] + fuel[1..];
    }
  }

  lemma JoinRowTellsTheTruth(v: VehicleRow, fuel: seq<FuelRow>, fetchFailed: bool)
    requires v.kenteken.Some?
    ensures TellsTheTruth(JoinRow(v, fuel, fetchFailed), fuel, fetchFailed)
  {
    FuelOfMembers(fuel, v.kenteken.value);
    var fuels := FuelOf(fuel, v.kenteken.value);
    hide FuelOf;
    if fuels != [] {
      assert fuels[0] in fuels;
    }
  }

  // ----- When it succeeds

  predicate FuelPrecedes(a: FuelRow, b: FuelRow) {
    && a.kenteken.Some? && a.volgnummer.Some? && b.kenteken.Some? && b.volgnummer.Some?
    && (Before(a.kenteken.value, b.kenteken.value)
        || (a.kenteken == b.kenteken && a.volgnummer.value < b.volgnummer.value))
  }

  predicate FuelInOrder(fuel: seq<FuelRow>) {
    && (forall i :: 0 <= i < |fuel| ==> fuel[i].kenteken.Some? && fuel[i].volgnummer.Some?)
    && (forall i :: 0 < i < |fuel| ==> FuelPrecedes(fuel[i - 1], fuel[i]))
  }

  /** Numbered 1, 2, .. with no more entries than fit. */
  predicate WellNumbered(group: seq<FuelRow>) {
    |group| <= MAX_FUEL_ENTRIES && forall j :: 0 <= j < |group| ==> group[j].volgnummer == Some(j + 1)
  }

  predicate Joinable(vehicles: seq<VehicleRow>, fuel: seq<FuelRow>) {
    && Register(vehicles)
    && FuelInOrder(fuel)
    && forall i :: 0 <= i < |vehicles| ==> WellNumbered(FuelOf(fuel, vehicles[i].kenteken.value))
  }

  // ----- Which error: the first fault met

  predicate VehicleFault(vehicles: seq<VehicleRow>, e: JoinError) {
    exists i :: 0 <= i < |vehicles| && Register(vehicles[..i]) && VehicleFaultAt(vehicles, i, e)
  }

  predicate VehicleFaultAt(vehicles: seq<VehicleRow>, i: nat, e: JoinError)
    requires i < |vehicles| && Register(vehicles[..i])
  {
    match vehicles[i].kenteken
    case None => e == MissingVehicleKenteken
    case Some(k) => i > 0 && AtMost(k, vehicles[..i][i - 1].kenteken.value) && e == UnsortedVehicles(k)
  }

  predicate FuelFault(fuel: seq<FuelRow>, e: JoinError) {
    exists i :: 0 <= i < |fuel| && FuelInOrder(fuel[..i]) && FuelFaultAt(fuel, i, e)
  }

  predicate FuelFaultAt(fuel: seq<FuelRow>, i: nat, e: JoinError)
    requires i < |fuel| && FuelInOrder(fuel[..i])
  {
    match (fuel[i].kenteken, fuel[i].volgnummer)
    case (None, _) => e == MissingFuelKenteken
    case (Some(k), None) => e == MissingVolgnummer(k)
    case (Some(k), Some(_)) => i > 0 && !FuelPrecedes(fuel[..i][i - 1], fuel[i]) && e == UnsortedFuel(k)
  }

  /** The first entry of a vehicle's fuel rows that is misnumbered or one too many. */
  predicate GroupFault(group: seq<FuelRow>, k: string, e: JoinError) {
    exists j :: 0 <= j < |group| && WellNumbered(group[..j]) && group[j].volgnummer.Some?
      && (if group[j].volgnummer.value != j + 1 then e == FuelInversion(k, j + 1, group[j].volgnummer.value)
          else j == MAX_FUEL_ENTRIES && e == TooManyFuelEntries(k))
  }

  predicate SequenceFault(vehicles: seq<VehicleRow>, fuel: seq<FuelRow>, e: JoinError)
    requires Register(vehicles)
  {
    exists i :: 0 <= i < |vehicles|
      && (forall j :: 0 <= j < i ==> WellNumbered(FuelOf(fuel, vehicles[j].kenteken.value)))
      && GroupFault(FuelOf(fuel, vehicles[i].kenteken.value), vehicles[i].kenteken.value, e)
  }

  predicate FirstFault(vehicles: seq<VehicleRow>, fuel: seq<FuelRow>, e: JoinError) {
    || VehicleFault(vehicles, e)
    || (Register(vehicles) && FuelFault(fuel, e))
    || (Register(vehicles) && FuelInOrder(fuel) && SequenceFault(vehicles, fuel, e))
  }

  // ----- The two validators

  method ValidateVehicleOrder(vehicles: seq<VehicleRow>) returns (r: Result<(), JoinError>)
    ensures r.Ok? <==> Register(vehicles)
    ensures r.Err? ==> VehicleFault(vehicles, r.error)
  {
    var prev: Option<string> := None;
    for i := 0 to |vehicles|
      invariant Register(vehicles[..i])
      invariant prev == if i == 0 then None else vehicles[i - 1].kenteken
    {
      if vehicles[i].kenteken.None? {
        assert VehicleFaultAt(vehicles, i, MissingVehicleKenteken);
        return Err(MissingVehicleKenteken);
      }
      var k := vehicles[i].kenteken.value;
      if prev.Some? && AtMost(k, prev.value) {
        assert VehicleFaultAt(vehicles, i, UnsortedVehicles(k));
        Trichotomy(prev.value, k);
        assert !Before(vehicles[i - 1].kenteken.value, vehicles[i].kenteken.value);
        return Err(UnsortedVehicles(k));
      }
      ExtendRegister(vehicles, i);
      prev := Some(k);
    }
    assert vehicles[..|vehicles|] == vehicles;
    r := Ok(());
  }

  lemma ExtendRegister(vehicles: seq<VehicleRow>, i: nat)
    requires i < |vehicles| && Register(vehicles[..i]) && vehicles[i].kenteken.Some?
    requires i > 0 ==>
             vehicles[i - 1].kenteken.Some? && !AtMost(vehicles[i].kenteken.value, vehicles[i - 1].kenteken.value)
    ensures Register(vehicles[..i + 1])
  {
    var earlier, longer := vehicles[..i], vehicles[..i + 1];
    assert forall j :: 0 <= j < i ==> longer[j] == earlier[j];
    if i > 0 {
      Trichotomy(vehicles[i - 1].kenteken.value, vehicles[i].kenteken.value);
      forall j | 0 <= j < i
        ensures Before(longer[j].kenteken.value, longer[i].kenteken.value)
      {
        if j < i - 1 {
          assert Before(earlier[j].kenteken.value, earlier[i - 1].kenteken.value);
          Transitive(longer[j].kenteken.value, longer[i - 1].kenteken.value, longer[i].kenteken.value);
        }
      }
    }
  }

  method ValidateFuelOrder(fuel: seq<FuelRow>) returns (r: Result<(), JoinError>)
    ensures r.Ok? <==> FuelInOrder(fuel)
    ensures r.Err? ==> FuelFault(fuel, r.error)
  {
    var prev: Option<(string, nat)> := None;
    for i := 0 to |fuel|
      invariant FuelInOrder(fuel[..i])
      invariant if i == 0 then prev == None
                else fuel[i - 1].kenteken.Some? && fuel[i - 1].volgnummer.Some?
                     && prev == Some((fuel[i - 1].kenteken.value, fuel[i - 1].volgnummer.value))
    {
      if fuel[i].kenteken.None? {
        assert FuelFaultAt(fuel, i, MissingFuelKenteken);
        return Err(MissingFuelKenteken);
      }
      var k := fuel[i].kenteken.value;
      if fuel[i].volgnummer.None? {
        assert FuelFaultAt(fuel, i, MissingVolgnummer(k));
        return Err(MissingVolgnummer(k));
      }
      var vol := fuel[i].volgnummer.value;
      if prev.Some? {
        Trichotomy(k, prev.value.0);
        Exclusive(k, prev.value.0);
        if Before(k, prev.value.0) || (k == prev.value.0 && vol <= prev.value.1) {
          assert FuelFaultAt(fuel, i, UnsortedFuel(k));
          assert !FuelPrecedes(fuel[i - 1], fuel[i]);
          return Err(UnsortedFuel(k));
        }
        assert FuelPrecedes(fuel[i - 1], fuel[i]);
      }
      prev := Some((k, vol));
    }
    assert fuel[..|fuel|] == fuel;
    r := Ok(());
  }

  // ----- Facts about the fuel cursor

  lemma {:induction false} FuelOfConcat(a: seq<FuelRow>, b: seq<FuelRow>, k: string)
    ensures FuelOf(a + b, k) == FuelOf(a, k) + FuelOf(b, k)
  {
    if a == [] {
      assert a + b == b;
    } else {
      assert (a + b)[0] == a[0] && (a + b)[1..] == a[1..] + b;
      FuelOfConcat(a[1..], b, k);
      var first := if a[0].kenteken == Some(k) then [a[0]] else [];
      assert FuelOf(a + b, k) == first + FuelOf(a[1..] + b, k) && FuelOf(a, k) == first + FuelOf(a[1..], k);
      hide FuelOf;
    }
  }

  lemma {:induction false} NoFuelOf(fuel: seq<FuelRow>, k: string)
    requires forall i :: 0 <= i < |fuel| ==> fuel[i].kenteken != Some(k)
    ensures FuelOf(fuel, k) == []
  {
    if fuel != [] {
      NoFuelOf(fuel[1..], k);
    }
  }

  lemma {:induction false} FuelPlatesAscend(fuel: seq<FuelRow>, i: nat, j: nat)
    requires FuelInOrder(fuel) && i <= j < |fuel|
    ensures AtMost(fuel[i].kenteken.value, fuel[j].kenteken.value)
    decreases j - i
  {
    if i < j {
      FuelPlatesAscend(fuel, i, j - 1);
      var a, b, c := fuel[i].kenteken.value, fuel[j - 1].kenteken.value, fuel[j].kenteken.value;
      assert FuelPrecedes(fuel[j - 1], fuel[j]);
      if a != b && b != c {
        Transitive(a, b, c);
      }
    }
  }

  /** Every row before the cursor is for a smaller plate or this one, every row
      from it on for a larger plate: the cursor has just passed the group. */
  lemma GroupIsBehindCursor(fuel: seq<FuelRow>, fi: nat, k: string)
    requires FuelInOrder(fuel) && fi <= |fuel|
    requires fi < |fuel| ==> Before(k, fuel[fi].kenteken.value)
    ensures FuelOf(fuel, k) == FuelOf(fuel[..fi], k)
  {
    forall j | fi <= j < |fuel|
      ensures fuel[j].kenteken != Some(k)
    {
      FuelPlatesAscend(fuel, fi, j);
      Exclusive(k, fuel[j].kenteken.value);
      if fuel[fi].kenteken.value != fuel[j].kenteken.value {
        Transitive(k, fuel[fi].kenteken.value, fuel[j].kenteken.value);
      }
    }
    NoFuelOf(fuel[fi..], k);
    assert fuel == fuel[..fi] + fuel[fi..];
    FuelOfConcat(fuel[..fi], fuel[fi..], k);
  }

  predicate AllBefore(fuel: seq<FuelRow>, fi: nat, k: string) {
    fi <= |fuel| && forall j :: 0 <= j < fi ==> fuel[j].kenteken.Some? && Before(fuel[j].kenteken.value, k)
  }

  lemma NothingBehindCursor(fuel: seq<FuelRow>, fi: nat, k: string)
    requires AllBefore(fuel, fi, k)
    ensures FuelOf(fuel[..fi], k) == []
  {
    forall j | 0 <= j < fi
      ensures fuel[..fi][j].kenteken != Some(k)
    {
      Irreflexive(k);
      assert fuel[..fi][j] == fuel[j];
    }
    NoFuelOf(fuel[..fi], k);
  }

  lemma CursorAdvances(fuel: seq<FuelRow>, fi: nat, k: string)
    requires fi < |fuel|
    ensures FuelOf(fuel[..fi + 1], k)
            == FuelOf(fuel[..fi], k) + (if fuel[fi].kenteken == Some(k) then [fuel[fi]] else [])
  {
    assert fuel[..fi + 1] == fuel[..fi] + [fuel[fi]];
    FuelOfConcat(fuel[..fi], [fuel[fi]], k);
    assert [fuel[fi]][1..] == [];
  }

  /** The rows collected so far are a prefix of the vehicle's group. */
  lemma CollectedIsPrefix(fuel: seq<FuelRow>, fi: nat, k: string)
    requires fi <= |fuel|
    ensures FuelOf(fuel[..fi], k) <= FuelOf(fuel, k)
  {
    assert fuel == fuel[..fi] + fuel[fi..];
    FuelOfConcat(fuel[..fi], fuel[fi..], k);
  }

  // ----- The join

  method SkipOrphans(fuel: seq<FuelRow>, from: nat, k: string) returns (fi: nat)
    requires FuelInOrder(fuel) && AllBefore(fuel, from, k)
    ensures from <= fi && AllBefore(fuel, fi, k)
    ensures fi < |fuel| ==> !Before(fuel[fi].kenteken.value, k)
  {
    fi := from;
    while fi < |fuel| && Before(fuel[fi].kenteken.value, k)
      invariant from <= fi && AllBefore(fuel, fi, k)
    {
      fi := fi + 1;
    }
  }

  method CollectGroup(fuel: seq<FuelRow>, from: nat, k: string) returns (r: Result<seq<FuelRow>, JoinError>, fi: nat)
    requires FuelInOrder(fuel) && AllBefore(fuel, from, k)
    requires from < |fuel| ==> !Before(fuel[from].kenteken.value, k)
    ensures r.Ok? <==> WellNumbered(FuelOf(fuel, k))
    ensures r.Ok? ==> r.value == FuelOf(fuel, k)
    ensures r.Err? ==> GroupFault(FuelOf(fuel, k), k, r.error)
    ensures r.Ok? ==> fi <= |fuel| && forall j :: 0 <= j < fi ==> AtMost(fuel[j].kenteken.value, k)
  {
    ghost var group := FuelOf(fuel, k);
    var collected: seq<FuelRow> := [];
    fi := from;
    NothingBehindCursor(fuel, fi, k);
    while fi < |fuel| && fuel[fi].kenteken.value == k
      invariant from <= fi <= |fuel|
      invariant collected == FuelOf(fuel[..fi], k) && WellNumbered(collected)
      invariant forall j :: 0 <= j < fi ==> AtMost(fuel[j].kenteken.value, k)
    {
      CursorAdvances(fuel, fi, k);
      CollectedIsPrefix(fuel, fi + 1, k);
      var expected := |collected| + 1;
      var actual := fuel[fi].volgnummer.value;
      assert group[..|collected|] == collected && group[|collected|] == fuel[fi];
      if actual != expected {
        r := Err(FuelInversion(k, expected, actual));
        return;
      }
      collected := collected + [fuel[fi]];
      fi := fi + 1;
      if |collected| > MAX_FUEL_ENTRIES {
        r := Err(TooManyFuelEntries(k));
        return;
      }
    }
    if fi < |fuel| {
      FuelPlatesAscend(fuel, from, fi);
      Trichotomy(fuel[from].kenteken.value, k);
      Trichotomy(fuel[fi].kenteken.value, k);
      Total(fuel[fi].kenteken.value, k);
      if Before(fuel[fi].kenteken.value, k) && fuel[from].kenteken.value != fuel[fi].kenteken.value {
        Transitive(fuel[from].kenteken.value, fuel[fi].kenteken.value, k);
      }
    }
    GroupIsBehindCursor(fuel, fi, k);
    r := Ok(collected);
  }

  /** One pass over both cursors computes the nested-loop join, exactly when
      the inputs are in order and every group is well numbered; otherwise it
      reports the first fault. */
  method MergeJoin(vehicles: seq<VehicleRow>, fuel: seq<FuelRow>, fetchFailed: bool)
    returns (r: Result<seq<WidenedRow>, JoinError>)
    ensures r.Ok? <==> Joinable(vehicles, fuel)
    ensures r.Ok? ==> r.value == NestedLoopJoin(vehicles, fuel, fetchFailed)
    ensures r.Ok? ==> forall i :: 0 <= i < |vehicles| ==>
                      r.value[i].vehicle == vehicles[i] && TellsTheTruth(r.value[i], fuel, fetchFailed)
    ensures r.Err? ==> FirstFault(vehicles, fuel, r.error)
  {
    var checked := ValidateVehicleOrder(vehicles);
    if checked.Err? {
      return Err(checked.error);
    }
    checked := ValidateFuelOrder(fuel);
    if checked.Err? {
      return Err(checked.error);
    }
    var result: seq<WidenedRow> := [];
    var fi: nat := 0;
    for i := 0 to |vehicles|
      invariant |result| == i && fi <= |fuel|
      invariant forall j :: 0 <= j < i ==> result[j] == JoinRow(vehicles[j], fuel, fetchFailed)
      invariant forall j :: 0 <= j < i ==> WellNumbered(FuelOf(fuel, vehicles[j].kenteken.value))
      invariant forall j :: 0 <= j < fi ==> i > 0 && AtMost(fuel[j].kenteken.value, vehicles[i - 1].kenteken.value)
    {
      var vk := vehicles[i].kenteken.value;
      PassedIsBefore(vehicles, fuel, i, fi);
      fi := SkipOrphans(fuel, fi, vk);
      var group, next := CollectGroup(fuel, fi, vk);
      if group.Err? {
        return Err(group.error);
      }
      fi := next;
      result := result + [WidenedRow(vehicles[i], group.value, StatusOf(group.value, fetchFailed))];
    }
    AllTellTheTruth(vehicles, fuel, fetchFailed);
    r := Ok(result);
  }

  lemma AllTellTheTruth(vehicles: seq<VehicleRow>, fuel: seq<FuelRow>, fetchFailed: bool)
    requires Register(vehicles)
    ensures forall i :: 0 <= i < |vehicles| ==>
            TellsTheTruth(NestedLoopJoin(vehicles, fuel, fetchFailed)[i], fuel, fetchFailed)
  {
    forall i | 0 <= i < |vehicles|
      ensures TellsTheTruth(NestedLoopJoin(vehicles, fuel, fetchFailed)[i], fuel, fetchFailed)
    {
      JoinRowTellsTheTruth(vehicles[i], fuel, fetchFailed);
    }
  }

  lemma PassedIsBefore(vehicles: seq<VehicleRow>, fuel: seq<FuelRow>, i: nat, fi: nat)
    requires Register(vehicles) && FuelInOrder(fuel) && i < |vehicles| && fi <= |fuel|
    requires forall j :: 0 <= j < fi ==> i > 0 && AtMost(fuel[j].kenteken.value, vehicles[i - 1].kenteken.value)
    ensures AllBefore(fuel, fi, vehicles[i].kenteken.value)
  {
    forall j | 0 <= j < fi
      ensures Before(fuel[j].kenteken.value, vehicles[i].kenteken.value)
    {
      var k := fuel[j].kenteken.value;
      assert i > 0 && Before(vehicles[i - 1].kenteken.value, vehicles[i].kenteken.value);
      if k != vehicles[i - 1].kenteken.value {
        Transitive(k, vehicles[i - 1].kenteken.value, vehicles[i].kenteken.value);
      }
    }
  }
}
