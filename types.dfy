/** The records the parking lot keeps: vehicles, slots, and the integer
    widths in which the program stores their numbers. */
module ParkingTypes {

  /** An optional value; `:-` on it propagates `None`. */
  datatype Option<T> = None | Some(value: T) {
    predicate IsFailure() { None? }

    function PropagateFailure<U>(): Option<U>
      requires None?
    {
      None
    }

    function Extract(): T
      requires Some?
    {
      value
    }
  }

  const IntMin: int := -0x8000_0000
  const IntMax: int := 0x7FFF_FFFF
  const LongMin: int := -0x8000_0000_0000_0000
  const LongMax: int := 0x7FFF_FFFF_FFFF_FFFF

  /** A C++ `int`: slot numbers and vehicle-type codes. */
  type Int32 = x: int | IntMin <= x <= IntMax

  /** A C++ `long long`: entry times in seconds since the epoch. */
  type Int64 = x: int | LongMin <= x <= LongMax

  /** An integer code that names neither enumerator of `VehicleType`. */
  type OtherCode = c: Int32 | c != 0 && c != 1 witness 2

  /** `MOTORCYCLE` (code 0) and `CAR` (code 1). The load path casts any
      integer read from the file to the enumeration, so a record may carry
      a code that is neither; `Uncoded` keeps that integer. */
  datatype VehicleType = Motorcycle | Car | Uncoded(code: OtherCode)

  /** The integer written for a type, as `static_cast<int>` gives it. */
  function Code(t: VehicleType): Int32
  {
    match t
    case Motorcycle => 0
    case Car => 1
    case Uncoded(c) => c
  }

  /** The type a code read back from the file stands for. */
  function TypeOfCode(c: Int32): (t: VehicleType)
    ensures Code(t) == c
  {
    if c == 0 then Motorcycle else if c == 1 then Car else Uncoded(c)
  }

  lemma CodeRoundTrip(t: VehicleType)
    ensures TypeOfCode(Code(t)) == t
  {
  }

  /** The occupant of a slot. */
  datatype Vehicle = Vehicle(plate: string, owner: string, kind: VehicleType)

  /** One numbered parking space. Vehicle and entry time mean something
      only while `occupied` holds. */
  datatype Slot = Slot(number: Int32, occupied: bool, vehicle: Vehicle, entry: Int64)

  /** The vehicle a vacant slot holds: `{"", "", MOTORCYCLE}`. */
  const EmptyVehicle: Vehicle := Vehicle("", "", Motorcycle)

  /** A freshly made vacant slot, as the seeding loop and `addSlot` build it. */
  function VacantSlot(n: Int32): Slot
  {
    Slot(n, false, EmptyVehicle, 0)
  }
}
