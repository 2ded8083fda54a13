# Parking lot registry and record format, in Dafny

This project models the core of a terminal parking-lot administration
program (`parkinglot.cpp`). The program keeps an ordered vector of numbered
parking slots. Each slot is vacant or holds one vehicle (plate, owner, car
or motorcycle) together with its entry time. The operator parks, unparks,
finds, adds and removes slots. Unparking charges a fee at a rate per fifteen minutes, prorated to the
minute.
The whole vector is written to a pipe-delimited text file after every change
and read back at start-up.

Modules, one per component of the program:

- `ParkingTypes` (`types.dfy`) holds the records `VehicleType`, `Vehicle` and
  `Slot`. It also defines the C++ integer widths the program stores them in
  (`Int32` for `int`, `Int64` for `long long`).
- `Fee` (`fee.dfy`) computes the elapsed whole minutes and the exact fee.
- `Codec` (`codec.dfy`) is the record line written by `saveRecords` and the
  parse done by `loadRecords`. The parse models `std::getline` on a string
  stream and `std::stoi`/`std::stoll`. The module also has the loading loop
  and the save/load round trips.
- `Registry` (`registry.dfy`) states every registry operation as a function
  from the old slot list to an outcome and the new list. Its lemmas state
  what each operation promises.
- `Lot` (`lot.dfy`) holds the class `ParkingLot`. Its field `slots` is the
  program's vector. Its methods run the program's scans and in-place
  updates, and each is proved equal to the matching `Registry` function.
  The module also has the seeding loop of `main` and the start-up sequence.

Inputs that come from the console or the clock are parameters. These are
the slot number, the type letter, plate, owner, admin slot numbers, and
`now` in whole seconds. The backing file is an `Option<string>` for loading
(`None` when it cannot be opened). Saving is the function `Codec.SaveText`.

Five behaviours of the code the model keeps:

- Slot numbers are unique only as long as the registry starts from unique
  numbers. Loading does not check for duplicates. The model proves that every
  operation keeps uniqueness (`Registry.RunKeepsUnique`); it does not assume it.
- A vacant slot read from the file keeps the type code and entry time
  written on its line. Only its plate and owner placeholders become `""`.
- Parking with an invalid type letter fails after the slot lookup, with the
  lot unchanged.
- The type code read from a line is cast to the enumeration whatever its
  value. `VehicleType.Uncoded` keeps a code other than 0 and 1, and the fee
  charges such a code the motorcycle rate.
- Plate and owner are read from the console with `getline` and stored as
  typed. A `|` or a placeholder text in them is not refused. A `|` shifts
  the later fields of the saved line by one. The next load throws when the
  text shifted into the type-code field is not a number
  (`Codec.FifthFieldNotANumber`, `Codec.DelimiterInPlateBreaksLoad`).
  Otherwise the slot reloads silently with shifted fields
  (`Codec.DelimiterInOwnerShiftsFields`). An occupied owner or plate equal
  to its placeholder reloads as `""` (`Codec.PlaceholderPlateIsLost`). The
  whole-file round trips therefore hold only for `Codec.Storable` slots.

## Model

| member | source | states |
|---|---|---|
| `ParkingTypes.TypeOfCode` | parkinglot.cpp:87 | the type built from a code read back from the file is written again as that same code |
| `ParkingTypes.CodeRoundTrip` | parkinglot.cpp:46 | writing a type as its integer code and casting it back gives the same type |
| `Fee.WholeMinutes` | parkinglot.cpp:121-122 | elapsed minutes are the seconds divided by 60, truncated toward zero, for positive and negative durations |
| `Fee.CarPaysTwiceMotorcycle` | parkinglot.cpp:124-129 | for the same minutes, a car pays exactly twice what a motorcycle pays |
| `Fee.ChargeMonotone` | parkinglot.cpp:129 | for a fixed type, the fee does not decrease as the minutes grow |
| `Fee.ZeroMinutesAreFree` | parkinglot.cpp:129 | zero minutes cost nothing, whatever the type |
| `Fee.ClockBehindEntryChargesNegative` | parkinglot.cpp:119-129 | a clock a minute or more behind the entry time gives a negative fee, because nothing guards against it |
| `Fee.ElapsedMonotone` | parkinglot.cpp:119-122 | a later current time never gives fewer elapsed minutes |
| `Fee.ChargeNonDecreasingInTime` | parkinglot.cpp:118-129 | the fee for one entry time does not decrease as the current time grows |
| `Fee.ElapsedMinutes` | parkinglot.cpp:119-122 | for a current time at or after the entry time, the result is the number of whole minutes elapsed, so `entry + 60 * m <= now < entry + 60 * m + 60`; a clock behind the entry gives at most 0 |
| `Fee.Rate` | parkinglot.cpp:124-127 | the rate per fifteen minutes is positive for every type; `Fee.CarPaysTwiceMotorcycle` states the 2 to 1 ratio |
| `Fee.Charge` | parkinglot.cpp:129 | the fee has the sign of the minute count: positive for a positive count, negative for a negative one, and `Fee.ZeroMinutesAreFree` covers zero |
| `Fee.UnderAMinuteIsFree` | parkinglot.cpp:118-129 | unparking less than a minute after entry gives 0 minutes and a fee of 0 |
| `Codec.IntToString` | parkinglot.cpp:42-47 | a number is written as decimal digits, with at most a leading minus sign |
| `Codec.ParseInteger` | parkinglot.cpp:70 | a `strtol`-style read of a field succeeds only with a value in the target type's range |
| `Codec.DigitsValueOfNat` | parkinglot.cpp:42 | the digits written for a natural number denote that number |
| `Codec.ParseIntegerOfString` | parkinglot.cpp:70 | reading back the text written for an in-range integer gives that integer |
| `Codec.StoiOfString` | parkinglot.cpp:70 | `stoi` of the text written for an `int` returns that `int` |
| `Codec.StollOfString` | parkinglot.cpp:82 | `stoll` of the text written for a `long long` returns that value |
| `Codec.Stoi` | parkinglot.cpp:70 | `stoi` of a field: `ParseInteger` within the `int` range, `None` where the call throws; `Codec.StoiOfString` reads back every written `int` |
| `Codec.Stoll` | parkinglot.cpp:82 | `stoll` of a field: `ParseInteger` within the `long long` range, `None` where the call throws; `Codec.StollOfString` reads back every written `long long` |
| `Codec.IndexOf` | parkinglot.cpp:69 | the delimiter search stops at the first delimiter, or at the end when there is none |
| `Codec.IndexOfJoin` | parkinglot.cpp:69 | in a field followed by a delimiter, the first delimiter is the one right after the field |
| `Codec.GetField` | parkinglot.cpp:69-82 | a stream that is no longer good leaves the target string and the stream unchanged. On a good stream the field read holds no `|`, and either the rest after it follows one consumed `|`, or the field is all the remaining text and the stream is no longer good |
| `Codec.GetFieldBeforeDelimiter` | parkinglot.cpp:69-78 | `getline` with `'|'` returns the field before the delimiter and leaves the rest after it, with the stream still good |
| `Codec.GetFieldLast` | parkinglot.cpp:81 | `getline` on a last field with no delimiter returns the whole field and leaves the stream at its end |
| `Codec.EncodeSlot` | parkinglot.cpp:42-47 | the six-field line written for one slot; `Codec.ParseEncodedSlot` states that parsing it gives the slot back |
| `Codec.ParseLine` | parkinglot.cpp:62-88 | the slot built from one line, each field read into the variable the code reads it into; `Codec.ReadSixFields` and `Codec.ParseEncodedSlot` state what it gives for well-formed and for written lines |
| `Codec.SlotOfFields` | parkinglot.cpp:70-88 | the conversion of the six fields succeeds exactly when both `stoi` calls and the `stoll` call succeed. The slot then has their number, type code and entry time, and is occupied exactly when the second field is `1`. Its plate and owner are the fields read, with `N/A_LICENSE` and `N/A_OWNER` turned into `""` |
| `Codec.ReadSixFields` | parkinglot.cpp:69-82 | a line of six delimiter-free fields is read back as exactly those six fields, in order |
| `Codec.IntToStringNoDelimiter` | parkinglot.cpp:42-47 | a written number holds neither the delimiter nor a newline |
| `Codec.ParseEncodedSlot` | parkinglot.cpp:42-47 | parsing the line written for a slot gives back its number, occupancy, type and entry time. An occupied slot keeps its plate and owner when neither holds `|` or equals its placeholder. A vacant slot comes back with `""` for both |
| `Codec.FifthFieldNotANumber` | parkinglot.cpp:69-79 | a line whose first five fields hold no `|` and whose fifth field is not a number makes the load throw, whatever follows |
| `Codec.DelimiterInPlateBreaksLoad` | parkinglot.cpp:42-47 | for the one occupied slot numbered 1 with plate `a|b`, owner `o`, a car, entry 5: its line has seven fields, the owner's text `o` is read as the type code, and that `stoi` throws |
| `Codec.ExtraFieldIgnored` | parkinglot.cpp:69-82 | a line with more than six fields, the first six free of `|`, is read as its first six fields; the rest of the line is ignored |
| `Codec.DelimiterInOwnerShiftsFields` | parkinglot.cpp:42-47 | for the one occupied slot numbered 1 with plate `p`, owner `Flat|12`, a car, entry 5: the load does not throw, and the slot comes back with owner `Flat`, type code 12 and entry time 1 |
| `Codec.PlaceholderPlateIsLost` | parkinglot.cpp:44 | an occupied slot whose plate is the literal `N/A_LICENSE` comes back with an empty plate, so the round trip needs its side condition |
| `Codec.SaveText` | parkinglot.cpp:41-48 | the text of a save, one line per slot ended by a newline; `Codec.SplitSavedText` and `Codec.SaveLoadRoundTrip` state that loading it gives the slots back |
| `Codec.NextLine` | parkinglot.cpp:61 | reading a line always consumes input and returns a line with no newline. With a newline in the text, the text is the line, the newline and the rest. Without one, the line is the whole text and nothing is left |
| `Codec.SplitLines` | parkinglot.cpp:61 | the lines the reading loop sees are the text's newline-separated pieces: none contains a newline. Writing each followed by a newline gives back exactly the text when it is empty or ends in a newline, and the text plus one newline otherwise |
| `Codec.Load` | parkinglot.cpp:52-92 | what `loadRecords` leaves in the registry; `Codec.LoadRecords` is proved equal to it and `Codec.SaveLoadRoundTrip` states that it inverts a save |
| `Codec.ParseLines` | parkinglot.cpp:61-89 | loading succeeds exactly when every line parses. The registry then holds one slot per line, in line order. Loading fails when some line's conversion throws |
| `Codec.SaveTextJoinsLines` | parkinglot.cpp:41-48 | the saved text is the slots' lines, in order, each followed by a newline, as `JoinLines` writes them |
| `Codec.EncodeSlots` | parkinglot.cpp:41-47 | one written line per slot, in order: line i is the line of slot i |
| `Codec.LoadStep` | parkinglot.cpp:61-88 | one turn of the reading loop moves the first line's slot into the registry, and a first line that fails to parse fails the whole load |
| `Codec.LoadRecords` | parkinglot.cpp:52-92 | the reading loop gives what `Load` specifies. A missing file leaves the registry as it was. Otherwise the registry is cleared and rebuilt from the file's lines |
| `Codec.EncodeSlotNoNewline` | parkinglot.cpp:42-47 | a storable slot's line holds no newline |
| `Codec.SplitSavedText` | parkinglot.cpp:41-48 | the saved text splits back into exactly one line per slot, in order, when no occupied slot's plate or owner holds `|` or a newline or equals its placeholder (`Codec.Storable`) |
| `Codec.SaveLoadRoundTrip` | parkinglot.cpp:35-92 | saving the registry and loading the file gives the same slots in the same order, with vacant slots' plate and owner emptied, when no occupied slot's plate or owner holds `|` or a newline or equals its placeholder (`Codec.Storable`) |
| `Codec.SaveLoadIdentity` | parkinglot.cpp:35-92 | when no occupied slot's plate or owner holds `|` or a newline or equals its placeholder (`Codec.Storable`), and every vacant slot has an empty plate and owner, which holds for every slot the program creates or vacates, the reload gives back the identical registry |
| `Registry.FirstMatch` | parkinglot.cpp:162-163 | a linear scan returns the first slot satisfying its condition, or no slot when none does |
| `Registry.TypeFromLetter` | parkinglot.cpp:171-178 | `C`/`c` means a car and `M`/`m` a motorcycle; any other letter is invalid |
| `Registry.Park` | parkinglot.cpp:151-196 | parking keeps the number of slots and every slot's number; a failed park leaves the lot unchanged |
| `Registry.ParkSucceedsIff` | parkinglot.cpp:162-195 | parking succeeds exactly when some slot has the number and is vacant and the letter is C or M in either case. The outcome is "slot unavailable" exactly when no such slot exists. On failure the lot is unchanged |
| `Registry.ParkChangesOnlyFirstVacant` | parkinglot.cpp:185-188 | a successful park makes the first vacant slot with the number occupied by `{plate, owner, type}` with entry time `now`. Every other slot, and the order, is unchanged |
| `Registry.Unpark` | parkinglot.cpp:198-218 | unparking keeps the number of slots and every slot's number; a plate that is not parked leaves the lot unchanged |
| `Registry.UnparkResetsFirstMatch` | parkinglot.cpp:203-217 | when no occupied slot carries the plate, unpark changes nothing. Otherwise it resets only the first such slot, to vacant with `{"", "", MOTORCYCLE}` and entry time 0, and reports that slot's number, minutes and fee |
| `Registry.FindVehicle` | parkinglot.cpp:225-234 | find returns the first occupied slot whose plate matches. It reports not found exactly when no occupied slot has that plate |
| `Registry.UnparkThenFindNotFound` | parkinglot.cpp:209-211 | after a successful unpark, finding the plate reports not found, provided no second occupied slot held it |
| `Registry.UnparkOneOfTwo` | parkinglot.cpp:203-214 | when two occupied slots carry the plate, find still succeeds after one unpark |
| `Registry.AddSlot` | parkinglot.cpp:263-278 | adding keeps every existing slot in place and grows the lot by exactly one slot when it succeeds, by none otherwise |
| `Registry.AddSlotEffect` | parkinglot.cpp:269-275 | adding an existing number changes nothing. Otherwise exactly one vacant slot with that number is appended at the end. Unique numbers stay unique |
| `Registry.RemoveSlot` | parkinglot.cpp:280-300 | a successful removal shrinks the lot by one slot and removes only slots it held; any other outcome leaves the lot unchanged |
| `Registry.RemoveSlotEffect` | parkinglot.cpp:286-299 | removal reports "not found" exactly when no slot has the number. It reports "occupied" exactly when the first such slot is occupied, and then the lot is unchanged. Otherwise exactly that slot is deleted and the rest keep their order |
| `Registry.RemoveSlotKeepsUnique` | parkinglot.cpp:293 | erasing a slot keeps slot numbers unique |
| `Registry.AddThenRemoveRestores` | parkinglot.cpp:263-299 | adding a new number and then removing it gives back the original registry |
| `Registry.Step` | parkinglot.cpp:345-351 | one menu choice applied to the slots; `Registry.StepKeepsUnique` states that it keeps slot numbers unique |
| `Registry.Run` | parkinglot.cpp:338-358 | the menu loop as a sequence of choices; `Registry.RunKeepsUnique` states that it keeps slot numbers unique |
| `Registry.StepKeepsUnique` | parkinglot.cpp:345-351 | every operation the menus dispatch keeps slot numbers unique |
| `Registry.RunKeepsUnique` | parkinglot.cpp:338-358 | after any sequence of park, unpark, find, add and remove operations, no two slots share a number |
| `Registry.ParkThenUnparkRestores` | parkinglot.cpp:151-217 | parking into a default vacant slot and unparking the same plate charges for the elapsed minutes and restores the registry, when no other slot held the plate |
| `Lot.DefaultSlots` | parkinglot.cpp:332-336 | seeding makes exactly ten vacant slots numbered 1 to 10, in that order |
| `Lot.Startup` | parkinglot.cpp:327-336 | start-up ends when loading throws. A missing or empty file gives the ten default slots. Otherwise it gives the loaded slots |
| `Lot.ParkingLot.constructor` | parkinglot.cpp:328 | the registry object holds the given slots |
| `Lot.ParkingLot.Park` | parkinglot.cpp:151-196 | the scan and in-place update give the outcome and new slots of `Registry.Park`, and slot numbers are unchanged |
| `Lot.ParkingLot.Unpark` | parkinglot.cpp:198-218 | the scan with early return gives the outcome, fee and new slots of `Registry.Unpark`, and slot numbers are unchanged |
| `Lot.ParkingLot.Find` | parkinglot.cpp:220-235 | the scan returns `Registry.FindVehicle` of the slots and modifies nothing |
| `Lot.ParkingLot.AddSlot` | parkinglot.cpp:263-278 | the duplicate scan and append give `Registry.AddSlot`, and uniqueness is preserved |
| `Lot.ParkingLot.RemoveSlot` | parkinglot.cpp:280-300 | the lookup, guard and erase give `Registry.RemoveSlot`, and uniqueness is preserved |
| `Lot.ParkingLot.Records` | parkinglot.cpp:35-48 | the text `saveRecords` writes for the object's slots; `Lot.ParkingLot.RecordsReload` states that loading it gives them back |
| `Lot.ParkingLot.RecordsReload` | parkinglot.cpp:35-92 | when every slot is writable and every vacant slot has an empty plate and owner, loading the saved records gives back exactly the object's slots |
| `Lot.FirstRunParkUnparkScenario` | parkinglot.cpp:151-217 | on the default lot, parking a car with plate `ABC123` in slot 3 and unparking it within the minute costs 0 and leaves the default lot |
| `Lot.FirstRunAddRemoveScenario` | parkinglot.cpp:263-299 | on the default lot, adding slot 11 and removing it leaves the default lot |
| `Lot.UnparkThenFind` | parkinglot.cpp:198-235 | through the class, unparking a plate at most one slot holds and then finding it reports not found |

## Left out

- The console: menus, prompts, `std::cin` parsing, `clearInputBuffer`,
  `displayAvailableSlots` and `displayAllSlots` table layout, and the
  messages each operation prints. Operations return outcomes instead.
- The admin password loop (`adminLogin`). It only gates add and remove,
  which are modelled. The dispatch of the menu loops is `Registry.Run`,
  a sequence of commands.
- Opening, writing and closing the backing file, and the error message when
  it cannot be opened for writing. `Codec.SaveText` is the text a successful
  save writes. Load takes the file's text, or `None` when there is no file.
- The wall clock. `now` is a parameter in whole seconds, which is what
  `to_time_t` stores at park. At unpark the program subtracts the entry time
  from a clock with sub-second precision. Dropping the fraction changes the
  minute count only for negative durations.
- Fee.WholeMinutes: does not model the nanosecond clock representation, its
  overflow for entry times beyond about 292 years, the rounding of the
  difference through `double`, or the narrowing of the minute count to
  `int`. All of these are exact for realistic timestamps.
- Fee.Charge: the fee is an exact `real`. The program computes it in `double`
  and prints it with two decimals, and that rounding is not modelled.
- Codec.ParseInteger: models base-10 `strtol` in the C locale, with leading
  white space, sign, digits and the range check. Characters are Dafny
  characters, not the bytes of a `std::string`.
- The cast of a type code other than 0 or 1 to `VehicleType` is undefined
  behaviour since C++17, because the enumeration has no fixed underlying
  type. The model keeps the integer, which is what GCC and Clang do without
  `-fstrict-enums`.
