/** The slot registry as values: each operation maps the ordered list of
    slots to an outcome and the list afterwards. The class in `Lot`
    implements these with the program's loops. */
module Registry {
  import opened ParkingTypes
  import Fee

  // ---------------------------------------------------------------------
  // Linear scans

  /** What a scan looks for. */
  datatype Query =
    | VacantNumbered(n: int)    // park: the slot number, and still vacant
    | OccupiedBy(plate: string) // unpark, find: an occupied slot with the plate
    | Numbered(n: int)          // add, remove: the slot number alone

  predicate Matches(q: Query, s: Slot)
  {
    match q
    case VacantNumbered(n) => s.number == n && !s.occupied
    case OccupiedBy(p) => s.occupied && s.vehicle.plate == p
    case Numbered(n) => s.number == n
  }

  /** The index of the first slot the scan for `q` stops at. */
  function FirstMatch(lot: seq<Slot>, q: Query): (r: Option<nat>)
    ensures r.Some? ==>
      r.value < |lot| && Matches(q, lot[r.value])
      && forall j :: 0 <= j < r.value ==> !Matches(q, lot[j])
    ensures r.None? ==> forall j :: 0 <= j < |lot| ==> !Matches(q, lot[j])
  {
    if lot == [] then None
    else if Matches(q, lot[0]) then Some(0)
    else match FirstMatch(lot[1..], q)
      case None => None
      case Some(k) => Some(k + 1)
  }

  /** No two slots share a number. */
  predicate UniqueNumbers(lot: seq<Slot>)
  {
    forall i, j :: 0 <= i < j < |lot| ==> lot[i].number != lot[j].number
  }

  // ---------------------------------------------------------------------
  // Park

  datatype ParkOutcome = Parked | SlotUnavailable | InvalidVehicleType

  /** The vehicle type a letter names, upper or lower case. */
  function TypeFromLetter(c: char): (r: Option<VehicleType>)
    ensures r == Some(Car) <==> c == 'C' || c == 'c'
    ensures r == Some(Motorcycle) <==> c == 'M' || c == 'm'
    ensures r.None? <==> c !in "CcMm"
  {
    if c == 'C' || c == 'c' then Some(Car)
    else if c == 'M' || c == 'm' then Some(Motorcycle)
    else None
  }

  /** `parkVehicle`: the first vacant slot with the number takes the vehicle,
      stamped with the current time, provided the type letter is valid. */
  function Park(lot: seq<Slot>, n: Int32, letter: char, plate: string, owner: string, now: Int64)
    : (r: (ParkOutcome, seq<Slot>))
    ensures |r.1| == |lot| && forall i :: 0 <= i < |lot| ==> r.1[i].number == lot[i].number
    ensures r.0 != Parked ==> r.1 == lot
  {
    match FirstMatch(lot, VacantNumbered(n))
    case None => (SlotUnavailable, lot)
    case Some(i) =>
      match TypeFromLetter(letter)
      case None => (InvalidVehicleType, lot)
      case Some(t) =>
        (Parked, lot[i := lot[i].(vehicle := Vehicle(plate, owner, t), occupied := true, entry := now)])
  }

  /** Parking succeeds exactly when some slot has the number and is vacant
      and the letter names a type; otherwise the lot is unchanged. */
  lemma ParkSucceedsIff(lot: seq<Slot>, n: Int32, letter: char, plate: string, owner: string, now: Int64)
    ensures var (o, after) := Park(lot, n, letter, plate, owner, now);
      && (o == Parked <==>
            (exists i :: 0 <= i < |lot| && lot[i].number == n && !lot[i].occupied)
            && letter in "CcMm")
      && (o == SlotUnavailable <==>
            forall i :: 0 <= i < |lot| ==> lot[i].number != n || lot[i].occupied)
      && (o != Parked ==> after == lot)
  {
  }

  /** A successful park changes exactly the first vacant slot with the
      number: it becomes occupied by the vehicle from `now` on, and every
      other slot, and the order, stays as it was. */
  lemma ParkChangesOnlyFirstVacant(lot: seq<Slot>, n: Int32, letter: char, plate: string, owner: string, now: Int64)
    requires Park(lot, n, letter, plate, owner, now).0 == Parked
    ensures var after := Park(lot, n, letter, plate, owner, now).1;
      && |after| == |lot|
      && exists i :: 0 <= i < |lot|
           && lot[i].number == n && !lot[i].occupied
           && (forall j :: 0 <= j < i ==> lot[j].number != n || lot[j].occupied)
           && after[i] == Slot(n, true, Vehicle(plate, owner, TypeFromLetter(letter).value), now)
           && forall j :: 0 <= j < |lot| && j != i ==> after[j] == lot[j]
  {
  }

  // ---------------------------------------------------------------------
  // Unpark and find

  datatype UnparkOutcome =
    | NotParked
    | Unparked(number: Int32, minutes: int, fee: real)

  /** A slot as unparking leaves it: vacant, `{"", "", MOTORCYCLE}`, entry 0. */
  function Vacate(s: Slot): Slot
  {
    s.(occupied := false, vehicle := EmptyVehicle, entry := 0)
  }

  /** `unparkVehicle`: the first occupied slot with the plate is charged for
      the time since its entry and then vacated. */
  function Unpark(lot: seq<Slot>, plate: string, now: Int64): (r: (UnparkOutcome, seq<Slot>))
    ensures |r.1| == |lot| && forall i :: 0 <= i < |lot| ==> r.1[i].number == lot[i].number
    ensures r.0 == NotParked ==> r.1 == lot
  {
    match FirstMatch(lot, OccupiedBy(plate))
    case None => (NotParked, lot)
    case Some(i) =>
      var minutes := Fee.ElapsedMinutes(lot[i].entry, now);
      (Unparked(lot[i].number, minutes, Fee.Charge(lot[i].vehicle.kind, minutes)), lot[i := Vacate(lot[i])])
  }

  /** Unparking a plate no occupied slot carries changes nothing; otherwise
      only the first occupied slot with it is reset, and the charge is the
      fee for its stay. */
  lemma UnparkResetsFirstMatch(lot: seq<Slot>, plate: string, now: Int64)
    ensures var (o, after) := Unpark(lot, plate, now);
      && (o == NotParked <==> forall i :: 0 <= i < |lot| ==> !lot[i].occupied || lot[i].vehicle.plate != plate)
      && (o == NotParked ==> after == lot)
      && (o != NotParked ==>
            |after| == |lot|
            && exists i :: 0 <= i < |lot|
                 && lot[i].occupied && lot[i].vehicle.plate == plate
                 && (forall j :: 0 <= j < i ==> !lot[j].occupied || lot[j].vehicle.plate != plate)
                 && after[i] == Slot(lot[i].number, false, Vehicle("", "", Motorcycle), 0)
                 && o.number == lot[i].number
                 && o.minutes == Fee.ElapsedMinutes(lot[i].entry, now)
                 && o.fee == Fee.Charge(lot[i].vehicle.kind, o.minutes)
                 && forall j :: 0 <= j < |lot| && j != i ==> after[j] == lot[j])
  {
  }

  /** `findVehicle`: the first occupied slot with the plate, if any. */
  function FindVehicle(lot: seq<Slot>, plate: string): (r: Option<Slot>)
    ensures r.Some? ==>
      r.value.occupied && r.value.vehicle.plate == plate
      && exists i :: 0 <= i < |lot| && lot[i] == r.value
           && forall j :: 0 <= j < i ==> !lot[j].occupied || lot[j].vehicle.plate != plate
    ensures r.None? <==> forall i :: 0 <= i < |lot| ==> !lot[i].occupied || lot[i].vehicle.plate != plate
  {
    match FirstMatch(lot, OccupiedBy(plate))
    case None => None
    case Some(i) => Some(lot[i])
  }

  /** After a successful unpark, a find for the plate reports not found,
      provided no second occupied slot carried the same plate. */
  lemma UnparkThenFindNotFound(lot: seq<Slot>, plate: string, now: Int64)
    requires Unpark(lot, plate, now).0.Unparked?
    requires forall i, j :: 0 <= i < j < |lot| && lot[i].occupied && lot[j].occupied ==>
               lot[i].vehicle.plate != plate || lot[j].vehicle.plate != plate
    ensures FindVehicle(Unpark(lot, plate, now).1, plate) == None
  {
  }

  /** Without that proviso the program finds the other slot: plates are not
      checked for uniqueness when parking. */
  lemma {:induction false} UnparkOneOfTwo(lot: seq<Slot>, plate: string, now: Int64, i: nat, j: nat)
    requires i < j < |lot|
    requires lot[i].occupied && lot[i].vehicle.plate == plate
    requires lot[j].occupied && lot[j].vehicle.plate == plate
    ensures FindVehicle(Unpark(lot, plate, now).1, plate).Some?
  {
    var k := FirstMatch(lot, OccupiedBy(plate)).value;
    assert Matches(OccupiedBy(plate), lot[i]);
    assert k <= i;
    var after := Unpark(lot, plate, now).1;
    assert after[j] == lot[j];
  }

  // ---------------------------------------------------------------------
  // Add and remove

  /** `addSlot`: a number already present is refused; a new one is appended
      as a vacant slot. */
  function AddSlot(lot: seq<Slot>, n: Int32): (r: (bool, seq<Slot>))
    ensures |r.1| == (if r.0 then |lot| + 1 else |lot|) && r.1[..|lot|] == lot
  {
    match FirstMatch(lot, Numbered(n))
    case Some(_) => (false, lot)
    case None => (true, lot + [VacantSlot(n)])
  }

  lemma AddSlotEffect(lot: seq<Slot>, n: Int32)
    ensures var (added, after) := AddSlot(lot, n);
      && (added <==> forall i :: 0 <= i < |lot| ==> lot[i].number != n)
      && (!added ==> after == lot)
      && (added ==> after == lot + [Slot(n, false, Vehicle("", "", Motorcycle), 0)])
      && (UniqueNumbers(lot) ==> UniqueNumbers(after))
  {
  }

  datatype RemoveOutcome = Removed | NoSuchSlot | SlotOccupied

  /** `removeSlot`: the first slot with the number is erased if it is vacant. */
  function RemoveSlot(lot: seq<Slot>, n: Int32): (r: (RemoveOutcome, seq<Slot>))
    ensures |r.1| == (if r.0 == Removed then |lot| - 1 else |lot|)
    ensures r.0 != Removed ==> r.1 == lot
    ensures r.0 == Removed ==> multiset(r.1) < multiset(lot)
  {
    match FirstMatch(lot, Numbered(n))
    case None => (NoSuchSlot, lot)
    case Some(i) =>
      if lot[i].occupied then (SlotOccupied, lot)
      else
        assert lot == lot[..i] + [lot[i]] + lot[i + 1..];
        (Removed, lot[..i] + lot[i + 1..])
  }

  /** A missing number or an occupied slot leaves the lot unchanged;
      otherwise exactly the first slot with the number is deleted and the
      rest keep their relative order. */
  lemma RemoveSlotEffect(lot: seq<Slot>, n: Int32)
    ensures var (o, after) := RemoveSlot(lot, n);
      && (o == NoSuchSlot <==> forall i :: 0 <= i < |lot| ==> lot[i].number != n)
      && (o != Removed ==> after == lot)
      && (o != NoSuchSlot ==>
            exists i :: 0 <= i < |lot| && lot[i].number == n
              && (forall j :: 0 <= j < i ==> lot[j].number != n)
              && (o == SlotOccupied <==> lot[i].occupied)
              && (o == Removed ==>
                    |after| == |lot| - 1
                    && (forall j :: 0 <= j < i ==> after[j] == lot[j])
                    && forall j :: i <= j < |after| ==> after[j] == lot[j + 1]))
  {
  }

  lemma RemoveSlotKeepsUnique(lot: seq<Slot>, n: Int32)
    requires UniqueNumbers(lot)
    ensures UniqueNumbers(RemoveSlot(lot, n).1)
  {
  }

  /** Adding a new number and removing it again restores the lot. */
  lemma {:induction false} AddThenRemoveRestores(lot: seq<Slot>, n: Int32)
    requires forall i :: 0 <= i < |lot| ==> lot[i].number != n
    ensures AddSlot(lot, n).0
    ensures RemoveSlot(AddSlot(lot, n).1, n) == (Removed, lot)
  {
    var added := lot + [VacantSlot(n)];
    assert Matches(Numbered(n), added[|lot|]);
    assert forall j :: 0 <= j < |lot| ==> !Matches(Numbered(n), added[j]);
    assert FirstMatch(added, Numbered(n)) == Some(|lot|);
    assert added[..|lot|] + added[|lot| + 1..] == lot;
  }

  // ---------------------------------------------------------------------
  // Sequences of operations, as the menus issue them

  /** A registry operation with the operator's inputs. */
  datatype Command =
    | ParkCmd(n: Int32, letter: char, plate: string, owner: string, now: Int64)
    | UnparkCmd(plate: string, now: Int64)
    | FindCmd(plate: string)
    | AddCmd(n: Int32)
    | RemoveCmd(n: Int32)

  function Step(lot: seq<Slot>, c: Command): seq<Slot>
  {
    match c
    case ParkCmd(n, letter, plate, owner, now) => Park(lot, n, letter, plate, owner, now).1
    case UnparkCmd(plate, now) => Unpark(lot, plate, now).1
    case FindCmd(_) => lot
    case AddCmd(n) => AddSlot(lot, n).1
    case RemoveCmd(n) => RemoveSlot(lot, n).1
  }

  function Run(lot: seq<Slot>, cmds: seq<Command>): seq<Slot>
    decreases |cmds|
  {
    if cmds == [] then lot else Run(Step(lot, cmds[0]), cmds[1..])
  }

  /** Park and unpark never touch slot numbers; add and remove keep them
      unique, so every command does. */
  lemma StepKeepsUnique(lot: seq<Slot>, c: Command)
    requires UniqueNumbers(lot)
    ensures UniqueNumbers(Step(lot, c))
  {
  }

  /** No sequence of operations makes two slots share a number. */
  lemma {:induction false} RunKeepsUnique(lot: seq<Slot>, cmds: seq<Command>)
    requires UniqueNumbers(lot)
    ensures UniqueNumbers(Run(lot, cmds))
    decreases |cmds|
  {
    if cmds != [] {
      StepKeepsUnique(lot, cmds[0]);
      RunKeepsUnique(Step(lot, cmds[0]), cmds[1..]);
    }
  }

  /** Parking a vehicle into a freshly vacant slot and unparking it charges
      for the stay and restores the lot, when no other slot holds the plate. */
  lemma {:induction false} ParkThenUnparkRestores(lot: seq<Slot>, n: Int32, letter: char, plate: string,
                                                  owner: string, now: Int64, later: Int64)
    requires forall j :: 0 <= j < |lot| ==> !lot[j].occupied || lot[j].vehicle.plate != plate
    requires Park(lot, n, letter, plate, owner, now).0 == Parked
    requires forall j :: 0 <= j < |lot| && lot[j].number == n && !lot[j].occupied ==> lot[j] == VacantSlot(n)
    ensures var t := TypeFromLetter(letter).value;
      var minutes := Fee.ElapsedMinutes(now, later);
      Unpark(Park(lot, n, letter, plate, owner, now).1, plate, later)
        == (Unparked(n, minutes, Fee.Charge(t, minutes)), lot)
  {
    var i := FirstMatch(lot, VacantNumbered(n)).value;
    var parked := Park(lot, n, letter, plate, owner, now).1;
    assert Matches(OccupiedBy(plate), parked[i]);
    forall j | 0 <= j < i
      ensures !Matches(OccupiedBy(plate), parked[j])
    {
      assert parked[j] == lot[j];
    }
    assert FirstMatch(parked, OccupiedBy(plate)) == Some(i);
    assert Vacate(parked[i]) == lot[i];
    assert parked[i := lot[i]] == lot;
  }
}
