/** The program's in-memory parking lot: a vector of slots that the menu
    operations scan and update in place, and the start-up that fills it
    from the backing file or with ten default slots. */
module Lot {
  import opened ParkingTypes
  import Fee
  import Codec
  import Registry

  /** The ten vacant slots, numbered 1 to 10 in order, that seed an empty lot. */
  predicate IsDefaultLot(lot: seq<Slot>)
  {
    |lot| == 10 && forall i :: 0 <= i < 10 ==> lot[i] == VacantSlot(i + 1)
  }

  /** The seeding loop of `main`. */
  method DefaultSlots() returns (lot: seq<Slot>)
    ensures IsDefaultLot(lot)
  {
    lot := [];
    for i := 1 to 11
      invariant |lot| == i - 1
      invariant forall j :: 0 <= j < i - 1 ==> lot[j] == VacantSlot(j + 1)
    {
      lot := lot + [VacantSlot(i)];
    }
  }

  /** The start of `main`: load the records into an empty lot, and seed
      the default slots if that leaves it empty. `None` is a load that
      throws, which ends the program. */
  method Startup(file: Option<string>) returns (r: Option<seq<Slot>>)
    ensures Codec.Load(file, []).None? ==> r.None?
    ensures Codec.Load(file, []) == Some([]) ==> r.Some? && IsDefaultLot(r.value)
    ensures Codec.Load(file, []).Some? && Codec.Load(file, []).value != [] ==> r == Codec.Load(file, [])
    ensures file.None? ==> r.Some? && IsDefaultLot(r.value)
  {
    r := Codec.LoadRecords(file, []);
    if r.Some? && r.value == [] {
      var seeded := DefaultSlots();
      r := Some(seeded);
    }
  }

  /** The registry object: the ordered slots every operation works on. */
  class ParkingLot {
    var slots: seq<Slot>

    constructor (initial: seq<Slot>)
      ensures slots == initial
    {
      slots := initial;
    }

    /** `parkVehicle`, with the operator's answers as parameters. */
    method Park(n: Int32, letter: char, plate: string, owner: string, now: Int64)
      returns (outcome: Registry.ParkOutcome)
      modifies this
      ensures (outcome, slots) == Registry.Park(old(slots), n, letter, plate, owner, now)
      ensures |slots| == |old(slots)| && forall i :: 0 <= i < |slots| ==> slots[i].number == old(slots)[i].number
    {
      var i := 0;
      while i < |slots| && !(slots[i].number == n && !slots[i].occupied)
        invariant 0 <= i <= |slots|
        invariant forall j :: 0 <= j < i ==> !Registry.Matches(Registry.VacantNumbered(n), slots[j])
      {
        i := i + 1;
      }
      if i == |slots| {
        return Registry.SlotUnavailable;
      }
      var kind;
      if letter == 'C' || letter == 'c' {
        kind := Car;
      } else if letter == 'M' || letter == 'm' {
        kind := Motorcycle;
      } else {
        return Registry.InvalidVehicleType;
      }
      slots := slots[i := slots[i].(vehicle := Vehicle(plate, owner, kind), occupied := true, entry := now)];
      outcome := Registry.Parked;
    }

    /** `unparkVehicle`: the outcome carries what the fee display shows. */
    method Unpark(plate: string, now: Int64) returns (outcome: Registry.UnparkOutcome)
      modifies this
      ensures (outcome, slots) == Registry.Unpark(old(slots), plate, now)
      ensures |slots| == |old(slots)| && forall i :: 0 <= i < |slots| ==> slots[i].number == old(slots)[i].number
    {
      for i := 0 to |slots|
        invariant slots == old(slots)
        invariant forall j :: 0 <= j < i ==> !Registry.Matches(Registry.OccupiedBy(plate), slots[j])
      {
        if slots[i].occupied && slots[i].vehicle.plate == plate {
          var minutes := Fee.ElapsedMinutes(slots[i].entry, now);
          outcome := Registry.Unparked(slots[i].number, minutes, Fee.Charge(slots[i].vehicle.kind, minutes));
          slots := slots[i := slots[i].(occupied := false, vehicle := Vehicle("", "", Motorcycle), entry := 0)];
          return;
        }
      }
      outcome := Registry.NotParked;
    }

    /** `findVehicle`: reads the lot and changes nothing. */
    method Find(plate: string) returns (found: Option<Slot>)
      ensures found == Registry.FindVehicle(slots, plate)
    {
      for i := 0 to |slots|
        invariant forall j :: 0 <= j < i ==> !Registry.Matches(Registry.OccupiedBy(plate), slots[j])
      {
        if slots[i].occupied && slots[i].vehicle.plate == plate {
          return Some(slots[i]);
        }
      }
      return None;
    }

    /** `addSlot`. */
    method AddSlot(n: Int32) returns (added: bool)
      modifies this
      ensures (added, slots) == Registry.AddSlot(old(slots), n)
      ensures Registry.UniqueNumbers(old(slots)) ==> Registry.UniqueNumbers(slots)
    {
      Registry.AddSlotEffect(slots, n);
      for i := 0 to |slots|
        invariant forall j :: 0 <= j < i ==> !Registry.Matches(Registry.Numbered(n), slots[j])
      {
        if slots[i].number == n {
          return false;
        }
      }
      slots := slots + [VacantSlot(n)];
      added := true;
    }

    /** `removeSlot`. */
    method RemoveSlot(n: Int32) returns (outcome: Registry.RemoveOutcome)
      modifies this
      ensures (outcome, slots) == Registry.RemoveSlot(old(slots), n)
      ensures Registry.UniqueNumbers(old(slots)) ==> Registry.UniqueNumbers(slots)
    {
      if Registry.UniqueNumbers(slots) {
        Registry.RemoveSlotKeepsUnique(slots, n);
      }
      var i := 0;
      while i < |slots| && slots[i].number != n
        invariant 0 <= i <= |slots|
        invariant forall j :: 0 <= j < i ==> !Registry.Matches(Registry.Numbered(n), slots[j])
      {
        i := i + 1;
      }
      if i == |slots| {
        outcome := Registry.NoSuchSlot;
      } else if slots[i].occupied {
        outcome := Registry.SlotOccupied;
      } else {
        slots := slots[..i] + slots[i + 1..];
        outcome := Registry.Removed;
      }
    }

    /** The text `saveRecords` writes for the current slots. */
    function Records(): string
      reads this
    {
      Codec.SaveText(slots)
    }

    /** Every slot can be written, and a vacant one holds the empty vehicle
        text, as for every slot the program seeds, adds or vacates. */
    predicate Reloadable()
      reads this
    {
      forall i :: 0 <= i < |slots| ==>
        Codec.Storable(slots[i])
        && (!slots[i].occupied ==> slots[i].vehicle.plate == "" && slots[i].vehicle.owner == "")
    }

    /** Loading the saved records gives back the registry object's slots. */
    lemma RecordsReload()
      requires Reloadable()
      ensures Codec.Load(Some(Records()), []) == Some(slots)
    {
      Codec.SaveLoadIdentity(slots, []);
    }
  }

  /** First run with no backing file, then park a car in slot 3 and unpark
      it in the same minute: no charge, and the lot is the default again. */
  lemma {:induction false} FirstRunParkUnparkScenario(lot: seq<Slot>, owner: string, now: Int64, later: Int64)
    requires IsDefaultLot(lot)
    requires now <= later < now + 60
    ensures Registry.Park(lot, 3, 'C', "ABC123", owner, now).0 == Registry.Parked
    ensures Registry.Unpark(Registry.Park(lot, 3, 'C', "ABC123", owner, now).1, "ABC123", later)
         == (Registry.Unparked(3, 0, 0.0), lot)
  {
    assert lot[2].number == 3 && !lot[2].occupied;
    Registry.ParkSucceedsIff(lot, 3, 'C', "ABC123", owner, now);
    Registry.ParkThenUnparkRestores(lot, 3, 'C', "ABC123", owner, now, later);
    Fee.UnderAMinuteIsFree(Car, now, later);
  }

  /** Adding slot 11 to the default lot and removing it again gives the
      default lot back. */
  lemma FirstRunAddRemoveScenario(lot: seq<Slot>)
    requires IsDefaultLot(lot)
    ensures Registry.RemoveSlot(Registry.AddSlot(lot, 11).1, 11) == (Registry.Removed, lot)
  {
    Registry.AddThenRemoveRestores(lot, 11);
  }

  /** A client of the class: after unparking a plate that only one slot
      holds, finding it reports not found. */
  method UnparkThenFind(p: ParkingLot, plate: string, now: Int64) returns (found: Option<Slot>)
    requires forall i, j :: 0 <= i < j < |p.slots| && p.slots[i].occupied && p.slots[j].occupied ==>
               p.slots[i].vehicle.plate != plate || p.slots[j].vehicle.plate != plate
    modifies p
    ensures found.None?
  {
    var outcome := p.Unpark(plate, now);
    if outcome.Unparked? {
      Registry.UnparkThenFindNotFound(old(p.slots), plate, now);
    }
    found := p.Find(plate);
  }
}
