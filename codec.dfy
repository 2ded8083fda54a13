/** The persisted record format: one line per slot,
    `number|occupied|plate|owner|typeCode|entryTime`, with placeholder text
    for the plate and owner of a vacant slot. Saving is a function from
    slots to text; loading parses the lines of a text back into slots. */
module Codec {
  import opened ParkingTypes

  const NoLicense: string := "N/A_LICENSE"
  const NoOwner: string := "N/A_OWNER"

  // ---------------------------------------------------------------------
  // Decimal text of integers, as the stream insertion operator writes it

  predicate IsDigit(c: char) { '0' <= c <= '9' }

  predicate AllDigits(s: string) { forall i :: 0 <= i < |s| ==> IsDigit(s[i]) }

  function DigitChar(d: nat): (c: char)
    requires d < 10
    ensures IsDigit(c) && c as int - '0' as int == d
  {
    ('0' as int + d) as char
  }

  /** Decimal digits of `n`, most significant first, no leading zeros. */
  function NatToString(n: nat): (s: string)
    ensures |s| > 0 && AllDigits(s)
    decreases n
  {
    if n < 10 then [DigitChar(n)] else NatToString(n / 10) + [DigitChar(n % 10)]
  }

  /** `operator<<` on an integer: a minus sign, then the digits of the magnitude. */
  function IntToString(n: int): (s: string)
    ensures |s| > 0
    ensures forall i :: 0 <= i < |s| ==> IsDigit(s[i]) || (i == 0 && s[i] == '-')
  {
    if n < 0 then "-" + NatToString(-n) else NatToString(n)
  }

  // ---------------------------------------------------------------------
  // `std::stoi` / `std::stoll`: `strtol` in base 10, then a range check

  /** The characters `isspace` accepts in the C locale. */
  predicate IsSpace(c: char)
  {
    c == ' ' || c == '\t' || c == '\n' || c == '\r' || c as int == 11 || c as int == 12
  }

  function SkipSpace(s: string): (t: string)
    ensures |t| <= |s| && t == s[|s| - |t|..]
    ensures forall i :: 0 <= i < |s| - |t| ==> IsSpace(s[i])
    ensures t != [] ==> !IsSpace(t[0])
  {
    if s != [] && IsSpace(s[0]) then SkipSpace(s[1..]) else s
  }

  /** Length of the run of digits at the start of `s`. */
  function DigitRun(s: string): (k: nat)
    ensures k <= |s| && AllDigits(s[..k])
    ensures k < |s| ==> !IsDigit(s[k])
  {
    if s != [] && IsDigit(s[0]) then
      var k := 1 + DigitRun(s[1..]);
      assert forall i :: 1 <= i < k ==> s[..k][i] == s[1..][..k - 1][i - 1];
      k
    else 0
  }

  /** The number a string of decimal digits denotes. */
  function DigitsValue(s: string): nat
    requires AllDigits(s)
  {
    if s == [] then 0 else 10 * DigitsValue(s[..|s| - 1]) + (s[|s| - 1] as int - '0' as int)
  }

  /** The integer `strtol` reads at the start of `s`, if it reads one and it
      lies in `[lo, hi]`: leading white space, an optional sign, then the
      longest run of digits; whatever follows is ignored. `None` stands for
      the exception the conversion throws. */
  function ParseInteger(s: string, lo: int, hi: int): (r: Option<int>)
    ensures r.Some? ==> lo <= r.value <= hi
  {
    var t := SkipSpace(s);
    var negative := t != [] && t[0] == '-';
    var u := if t != [] && (t[0] == '-' || t[0] == '+') then t[1..] else t;
    var k := DigitRun(u);
    if k == 0 then None
    else
      var v: int := DigitsValue(u[..k]);
      var x := if negative then -v else v;
      if lo <= x <= hi then Some(x) else None
  }

  function Stoi(s: string): Option<Int32>
  {
    match ParseInteger(s, IntMin, IntMax)
    case None => None
    case Some(v) => Some(v)
  }

  function Stoll(s: string): Option<Int64>
  {
    match ParseInteger(s, LongMin, LongMax)
    case None => None
    case Some(v) => Some(v)
  }

  lemma {:induction false} DigitsValueOfNat(n: nat)
    ensures DigitsValue(NatToString(n)) == n
    decreases n
  {
    var s := NatToString(n);
    if n >= 10 {
      DigitsValueOfNat(n / 10);
      assert s[..|s| - 1] == NatToString(n / 10);
    }
  }

  lemma {:induction false} ParseIntegerOfString(n: int, lo: int, hi: int)
    requires lo <= n <= hi
    ensures ParseInteger(IntToString(n), lo, hi) == Some(n)
  {
    var s := IntToString(n);
    var m: nat := if n < 0 then -n else n;
    var digits := NatToString(m);
    assert SkipSpace(s) == s;
    var u := if n < 0 then s[1..] else s;
    assert u == digits;
    assert DigitRun(u) == |u|;
    assert u[..|u|] == u;
    DigitsValueOfNat(m);
  }

  /** The number written for an `int` reads back as that number. */
  lemma StoiOfString(n: Int32)
    ensures Stoi(IntToString(n)) == Some(n)
  {
    ParseIntegerOfString(n, IntMin, IntMax);
  }

  /** The number written for a `long long` reads back as that number. */
  lemma StollOfString(n: Int64)
    ensures Stoll(IntToString(n)) == Some(n)
  {
    ParseIntegerOfString(n, LongMin, LongMax);
  }

  // ---------------------------------------------------------------------
  // `std::getline` with a delimiter

  /** Position of the first `c` in `s`, or `|s|` when there is none. */
  function IndexOf(s: string, c: char): (k: nat)
    ensures k <= |s| && (k < |s| ==> s[k] == c)
    ensures forall j :: 0 <= j < k ==> s[j] != c
  {
    if s == [] || s[0] == c then 0 else 1 + IndexOf(s[1..], c)
  }

  lemma IndexOfJoin(a: string, c: char, b: string)
    requires c !in a
    ensures IndexOf(a + [c] + b, c) == |a|
  {
    var s := a + [c] + b;
    assert s[|a|] == c;
    assert forall j :: 0 <= j < |a| ==> s[j] == a[j];
  }

  /** What is left of a string stream and whether it is still `good()`. */
  datatype Reader = Reader(rest: string, good: bool)

  /** `std::getline(ss, str, '|')`. A stream that is no longer good fails
      at once and leaves `str` as it was; otherwise `str` becomes the text
      up to the next `|`, which is consumed, or all the remaining text, in
      which case the stream hits its end and is no longer good. */
  function GetField(r: Reader, str: string): (f: (string, Reader))
    ensures !r.good ==> f == (str, r)
    ensures r.good ==> NoDelimiter(f.0)
    ensures r.good && f.1.good ==> r.rest == f.0 + "|" + f.1.rest
    ensures r.good && !f.1.good ==> f.0 == r.rest && f.1.rest == []
  {
    if !r.good then (str, r)
    else
      var k := IndexOf(r.rest, '|');
      if k < |r.rest| then (r.rest[..k], Reader(r.rest[k + 1..], true))
      else (r.rest, Reader([], false))
  }

  lemma GetFieldBeforeDelimiter(a: string, b: string, str: string)
    requires '|' !in a
    ensures GetField(Reader(a + "|" + b, true), str) == (a, Reader(b, true))
  {
    IndexOfJoin(a, '|', b);
    var s := a + "|" + b;
    assert s[..|a|] == a;
    assert s[|a| + 1..] == b;
  }

  lemma GetFieldLast(a: string, str: string)
    requires '|' !in a
    ensures GetField(Reader(a, true), str) == (a, Reader([], false))
  {
  }

  // ---------------------------------------------------------------------
  // One record line

  /** The line `saveRecords` writes for a slot. */
  function EncodeSlot(s: Slot): string
  {
    IntToString(s.number) + "|" + ((if s.occupied then "1" else "0") + "|"
    + ((if s.occupied then s.vehicle.plate else NoLicense) + "|"
    + ((if s.occupied then s.vehicle.owner else NoOwner) + "|"
    + (IntToString(Code(s.vehicle.kind)) + "|" + IntToString(s.entry)))))
  }

  /** The slot `loadRecords` builds from one line, or `None` where one of
      its numeric conversions throws. Each field is read with `getline`
      into the variable the code reads it into, so a short line leaves a
      later field holding the text of an earlier one. */
  function ParseLine(line: string): Option<Slot>
  {
    var (p1, r1) := GetField(Reader(line, true), "");
    var (p2, r2) := GetField(r1, p1);
    var (license, r3) := GetField(r2, "");
    var (owner, r4) := GetField(r3, "");
    var (p5, r5) := GetField(r4, p2);
    var (p6, _) := GetField(r5, p5);
    SlotOfFields(p1, p2, license, owner, p5, p6)
  }

  /** The conversions `loadRecords` applies to the six fields it read. */
  function SlotOfFields(p1: string, p2: string, license: string, owner: string, p5: string, p6: string): (r: Option<Slot>)
    ensures r.Some? <==> Stoi(p1).Some? && Stoi(p5).Some? && Stoll(p6).Some?
    ensures r.Some? ==>
      r.value.number == Stoi(p1).value && Code(r.value.vehicle.kind) == Stoi(p5).value
      && r.value.entry == Stoll(p6).value && (r.value.occupied <==> p2 == "1")
      && r.value.vehicle.plate == (if license == NoLicense then "" else license)
      && r.value.vehicle.owner == (if owner == NoOwner then "" else owner)
  {
    var number :- Stoi(p1);
    var code :- Stoi(p5);
    var entry :- Stoll(p6);
    var plate := if license == NoLicense then "" else license;
    var name := if owner == NoOwner then "" else owner;
    Some(Slot(number, p2 == "1", Vehicle(plate, name, TypeOfCode(code)), entry))
  }

  /** A line of six delimiter-free fields is read back field by field. */
  lemma ReadSixFields(f1: string, f2: string, f3: string, f4: string, f5: string, f6: string)
    requires NoDelimiter(f1) && NoDelimiter(f2) && NoDelimiter(f3)
    requires NoDelimiter(f4) && NoDelimiter(f5) && NoDelimiter(f6)
    ensures ParseLine(f1 + "|" + (f2 + "|" + (f3 + "|" + (f4 + "|" + (f5 + "|" + f6)))))
         == SlotOfFields(f1, f2, f3, f4, f5, f6)
  {
    var t5 := f5 + "|" + f6;
    var t4 := f4 + "|" + t5;
    var t3 := f3 + "|" + t4;
    var t2 := f2 + "|" + t3;
    GetFieldBeforeDelimiter(f1, t2, "");
    GetFieldBeforeDelimiter(f2, t3, f1);
    GetFieldBeforeDelimiter(f3, t4, "");
    GetFieldBeforeDelimiter(f4, t5, "");
    GetFieldBeforeDelimiter(f5, f6, f2);
    GetFieldLast(f6, f5);
  }

  /** A line whose fifth field is no number makes the load throw, whatever follows. */
  lemma FifthFieldNotANumber(f1: string, f2: string, f3: string, f4: string, f5: string, t: string)
    requires NoDelimiter(f1) && NoDelimiter(f2) && NoDelimiter(f3)
    requires NoDelimiter(f4) && NoDelimiter(f5) && Stoi(f5).None?
    ensures ParseLine(f1 + "|" + (f2 + "|" + (f3 + "|" + (f4 + "|" + (f5 + "|" + t))))).None?
  {
    var t4 := f4 + "|" + (f5 + "|" + t);
    var t3 := f3 + "|" + t4;
    var t2 := f2 + "|" + t3;
    GetFieldBeforeDelimiter(f1, t2, "");
    GetFieldBeforeDelimiter(f2, t3, f1);
    GetFieldBeforeDelimiter(f3, t4, "");
    GetFieldBeforeDelimiter(f4, f5 + "|" + t, "");
    GetFieldBeforeDelimiter(f5, t, f2);
  }

  /** A plate holding the delimiter shifts the later fields: the owner's
      text lands where the type code is read, and its `stoi` throws. */
  lemma DelimiterInPlateBreaksLoad()
    ensures ParseLine(EncodeSlot(Slot(1, true, Vehicle("a|b", "o", Car), 5))).None?
  {
    assert IntToString(1) == "1" && IntToString(5) == "5" && Code(Car) == 1;
    assert EncodeSlot(Slot(1, true, Vehicle("a|b", "o", Car), 5))
        == "1" + "|" + ("1" + "|" + ("a" + "|" + ("b" + "|" + ("o" + "|" + "1|5"))));
    assert DigitRun("o") == 0;
    FifthFieldNotANumber("1", "1", "a", "b", "o", "1|5");
  }

  /** A line with a seventh field reads like its first six: the reading
      stops after the sixth field and ignores the rest. */
  lemma ExtraFieldIgnored(f1: string, f2: string, f3: string, f4: string, f5: string, f6: string, t: string)
    requires NoDelimiter(f1) && NoDelimiter(f2) && NoDelimiter(f3)
    requires NoDelimiter(f4) && NoDelimiter(f5) && NoDelimiter(f6)
    ensures ParseLine(f1 + "|" + (f2 + "|" + (f3 + "|" + (f4 + "|" + (f5 + "|" + (f6 + "|" + t))))))
         == SlotOfFields(f1, f2, f3, f4, f5, f6)
  {
    var t5 := f5 + "|" + (f6 + "|" + t);
    var t4 := f4 + "|" + t5;
    var t3 := f3 + "|" + t4;
    var t2 := f2 + "|" + t3;
    GetFieldBeforeDelimiter(f1, t2, "");
    GetFieldBeforeDelimiter(f2, t3, f1);
    GetFieldBeforeDelimiter(f3, t4, "");
    GetFieldBeforeDelimiter(f4, t5, "");
    GetFieldBeforeDelimiter(f5, f6 + "|" + t, f2);
    GetFieldBeforeDelimiter(f6, t, f5);
  }

  /** An owner holding the delimiter and a number reloads silently with
      shifted fields: owner `Flat|12` comes back as owner `Flat`, type code
      12 and the type code's text as its entry time. */
  lemma DelimiterInOwnerShiftsFields()
    ensures ParseLine(EncodeSlot(Slot(1, true, Vehicle("p", "Flat|12", Car), 5)))
         == Some(Slot(1, true, Vehicle("p", "Flat", TypeOfCode(12)), 1))
  {
    assert IntToString(1) == "1" && IntToString(5) == "5" && IntToString(12) == "12" && Code(Car) == 1;
    assert EncodeSlot(Slot(1, true, Vehicle("p", "Flat|12", Car), 5))
        == "1" + "|" + ("1" + "|" + ("p" + "|" + ("Flat" + "|" + ("12" + "|" + ("1" + "|" + "5")))));
    ExtraFieldIgnored("1", "1", "p", "Flat", "12", "1", "5");
    StoiOfString(1);
    StoiOfString(12);
    StollOfString(1);
  }

  /** What a save followed by a load makes of a slot: a vacant slot's
      plate and owner come back empty. */
  function Reloaded(s: Slot): Slot
  {
    if s.occupied then s else s.(vehicle := s.vehicle.(plate := "", owner := ""))
  }

  /** A field value that survives the line format: no delimiter in it. */
  predicate NoDelimiter(f: string) { '|' !in f }

  /** The side condition of the line round trip: an occupied slot's plate
      and owner hold no `|` and are not the placeholder texts. */
  predicate LineSafe(s: Slot)
  {
    s.occupied ==>
      NoDelimiter(s.vehicle.plate) && NoDelimiter(s.vehicle.owner)
      && s.vehicle.plate != NoLicense && s.vehicle.owner != NoOwner
  }

  lemma IntToStringNoDelimiter(n: int)
    ensures NoDelimiter(IntToString(n)) && '\n' !in IntToString(n)
  {
  }

  /** Parsing the line written for a slot gives the slot back, up to the
      emptied plate and owner of a vacant slot. */
  lemma ParseEncodedSlot(s: Slot)
    requires LineSafe(s)
    ensures ParseLine(EncodeSlot(s)) == Some(Reloaded(s))
  {
    IntToStringNoDelimiter(s.number);
    IntToStringNoDelimiter(Code(s.vehicle.kind));
    IntToStringNoDelimiter(s.entry);
    ReadSixFields(IntToString(s.number), if s.occupied then "1" else "0",
      if s.occupied then s.vehicle.plate else NoLicense,
      if s.occupied then s.vehicle.owner else NoOwner,
      IntToString(Code(s.vehicle.kind)), IntToString(s.entry));
    StoiOfString(s.number);
    StoiOfString(Code(s.vehicle.kind));
    StollOfString(s.entry);
    CodeRoundTrip(s.vehicle.kind);
  }

  /** The placeholder is not escaped: an occupied slot whose plate is the
      placeholder text loses its plate on reload. */
  lemma PlaceholderPlateIsLost(s: Slot)
    requires s.occupied && s.vehicle.plate == NoLicense && NoDelimiter(s.vehicle.owner)
    ensures ParseLine(EncodeSlot(s)).Some?
    ensures ParseLine(EncodeSlot(s)).value.vehicle.plate == ""
  {
    IntToStringNoDelimiter(s.number);
    IntToStringNoDelimiter(Code(s.vehicle.kind));
    IntToStringNoDelimiter(s.entry);
    ReadSixFields(IntToString(s.number), "1", NoLicense, s.vehicle.owner,
      IntToString(Code(s.vehicle.kind)), IntToString(s.entry));
    StoiOfString(s.number);
    StoiOfString(Code(s.vehicle.kind));
    StollOfString(s.entry);
  }

  // ---------------------------------------------------------------------
  // The whole file

  /** The text `saveRecords` writes: every slot's line, each ended by a newline. */
  function SaveText(lot: seq<Slot>): string
  {
    if lot == [] then "" else EncodeSlot(lot[0]) + "\n" + SaveText(lot[1..])
  }

  /** `std::getline(file, line)`: the text up to the next newline, which is
      consumed, or all of the remaining text. */
  function NextLine(text: string): (r: (string, string))
    requires text != []
    ensures |r.1| < |text|
    ensures '\n' !in r.0
    ensures '\n' in text ==> text == r.0 + "\n" + r.1
    ensures '\n' !in text ==> r == (text, [])
  {
    var k := IndexOf(text, '\n');
    if k < |text| then (text[..k], text[k + 1..]) else (text, [])
  }

  /** Each line followed by a newline, as `saveRecords` writes them. */
  function JoinLines(lines: seq<string>): string
  {
    if lines == [] then "" else lines[0] + "\n" + JoinLines(lines[1..])
  }

  /** The line written for each slot, in order. */
  function EncodeSlots(lot: seq<Slot>): (lines: seq<string>)
    ensures |lines| == |lot| && forall i :: 0 <= i < |lot| ==> lines[i] == EncodeSlot(lot[i])
  {
    if lot == [] then [] else [EncodeSlot(lot[0])] + EncodeSlots(lot[1..])
  }

  /** The saved text is the slots' lines joined, each ended by a newline. */
  lemma {:induction false} SaveTextJoinsLines(lot: seq<Slot>)
    ensures SaveText(lot) == JoinLines(EncodeSlots(lot))
  {
    if lot != [] {
      SaveTextJoinsLines(lot[1..]);
      assert EncodeSlots(lot)[1..] == EncodeSlots(lot[1..]);
    }
  }

  /** The lines the reading loop sees, in order: the text's newline-separated
      pieces, where a last line may lack its newline. */
  function SplitLines(text: string): (lines: seq<string>)
    ensures forall i :: 0 <= i < |lines| ==> '\n' !in lines[i]
    ensures |lines| <= |text|
    ensures text == [] || text[|text| - 1] == '\n' ==> JoinLines(lines) == text
    ensures text != [] && text[|text| - 1] != '\n' ==> JoinLines(lines) == text + "\n"
    decreases |text|
  {
    if text == [] then []
    else
      var (line, next) := NextLine(text);
      var rest := SplitLines(next);
      assert ([line] + rest)[1..] == rest;
      assert '\n' in text && next != [] ==> text[|text| - 1] == next[|next| - 1];
      [line] + rest
  }

  /** The slots parsed from `lines`, or `None` when any line fails to parse. */
  function ParseLines(lines: seq<string>): (r: Option<seq<Slot>>)
    ensures r.Some? ==>
      |r.value| == |lines| && forall i :: 0 <= i < |lines| ==> ParseLine(lines[i]) == Some(r.value[i])
    ensures r.None? ==> exists i :: 0 <= i < |lines| && ParseLine(lines[i]).None?
  {
    if lines == [] then Some([])
    else
      var first :- ParseLine(lines[0]);
      var rest :- ParseLines(lines[1..]);
      Some([first] + rest)
  }

  /** The registry after `loadRecords`. `file` is the backing file's text,
      `None` when it cannot be opened; then `current` is kept as it is. */
  function Load(file: Option<string>, current: seq<Slot>): Option<seq<Slot>>
  {
    match file
    case None => Some(current)
    case Some(text) => ParseLines(SplitLines(text))
  }

  /** `lot + rest`, where `rest` may be a failure. */
  function Prepend(lot: seq<Slot>, rest: Option<seq<Slot>>): Option<seq<Slot>>
  {
    match rest
    case None => None
    case Some(t) => Some(lot + t)
  }

  /** The first line the reading loop sees, then the lines of the rest. */
  lemma SplitLinesCons(text: string)
    requires text != []
    ensures SplitLines(text) == [NextLine(text).0] + SplitLines(NextLine(text).1)
    ensures SplitLines(text)[1..] == SplitLines(NextLine(text).1)
  {
    var lines := [NextLine(text).0] + SplitLines(NextLine(text).1);
    assert lines[1..] == SplitLines(NextLine(text).1);
  }

  /** One turn of the reading loop: the first line's slot moves from the
      parsed rest to the registry, or its failure fails the whole load. */
  lemma LoadStep(lot: seq<Slot>, lines: seq<string>)
    requires lines != []
    ensures ParseLine(lines[0]).None? ==> ParseLines(lines).None?
    ensures ParseLine(lines[0]).Some? ==>
      Prepend(lot, ParseLines(lines)) == Prepend(lot + [ParseLine(lines[0]).value], ParseLines(lines[1..]))
  {
    var tail := ParseLines(lines[1..]);
    if ParseLine(lines[0]).Some? && tail.Some? {
      assert lot + ([ParseLine(lines[0]).value] + tail.value) == (lot + [ParseLine(lines[0]).value]) + tail.value;
    }
  }

  /** `loadRecords`: read the file line by line, appending each parsed
      slot to a registry that starts out cleared. */
  method LoadRecords(file: Option<string>, current: seq<Slot>) returns (r: Option<seq<Slot>>)
    ensures r == Load(file, current)
  {
    if file.None? {
      return Some(current);
    }
    var lot: seq<Slot> := [];
    var rest := file.value;
    ghost var all := ParseLines(SplitLines(rest));
    if all.Some? {
      assert lot + all.value == all.value;
    }
    while rest != []
      invariant Load(file, current) == Prepend(lot, ParseLines(SplitLines(rest)))
      decreases |rest|
    {
      var (line, next) := NextLine(rest);
      SplitLinesCons(rest);
      LoadStep(lot, SplitLines(rest));
      var slot := ParseLine(line);
      if slot.None? {
        return None;
      }
      lot := lot + [slot.value];
      rest := next;
    }
    assert lot + [] == lot;
    return Some(lot);
  }

  /** A slot whose record survives a whole-file round trip: line-safe, and
      an occupied slot's plate and owner hold no newline either. */
  predicate Storable(s: Slot)
  {
    LineSafe(s) && (s.occupied ==> '\n' !in s.vehicle.plate && '\n' !in s.vehicle.owner)
  }

  lemma EncodeSlotNoNewline(s: Slot)
    requires Storable(s)
    ensures '\n' !in EncodeSlot(s)
  {
  }

  lemma {:induction false} SplitSavedText(lot: seq<Slot>)
    requires forall i :: 0 <= i < |lot| ==> Storable(lot[i])
    ensures |SplitLines(SaveText(lot))| == |lot|
    ensures forall i :: 0 <= i < |lot| ==> SplitLines(SaveText(lot))[i] == EncodeSlot(lot[i])
  {
    if lot != [] {
      var line := EncodeSlot(lot[0]);
      var rest := SaveText(lot[1..]);
      EncodeSlotNoNewline(lot[0]);
      IndexOfJoin(line, '\n', rest);
      var text := line + "\n" + rest;
      assert text[..|line|] == line;
      assert text[|line| + 1..] == rest;
      assert NextLine(text) == (line, rest);
      SplitSavedText(lot[1..]);
    }
  }

  /** Saving a registry and loading the file back gives the same slots in
      the same order, with vacant slots' plate and owner emptied. */
  lemma {:induction false} SaveLoadRoundTrip(lot: seq<Slot>, current: seq<Slot>)
    requires forall i :: 0 <= i < |lot| ==> Storable(lot[i])
    ensures Load(Some(SaveText(lot)), current).Some?
    ensures |Load(Some(SaveText(lot)), current).value| == |lot|
    ensures forall i :: 0 <= i < |lot| ==> Load(Some(SaveText(lot)), current).value[i] == Reloaded(lot[i])
  {
    var lines := SplitLines(SaveText(lot));
    SplitSavedText(lot);
    forall i | 0 <= i < |lot|
      ensures ParseLine(lines[i]) == Some(Reloaded(lot[i]))
    {
      ParseEncodedSlot(lot[i]);
    }
  }

  /** A registry whose vacant slots hold the empty vehicle, as every slot
      the program itself vacates or creates does, reloads identically. */
  lemma SaveLoadIdentity(lot: seq<Slot>, current: seq<Slot>)
    requires forall i :: 0 <= i < |lot| ==> Storable(lot[i])
    requires forall i :: 0 <= i < |lot| && !lot[i].occupied ==> lot[i].vehicle.plate == "" && lot[i].vehicle.owner == ""
    ensures Load(Some(SaveText(lot)), current) == Some(lot)
  {
    SaveLoadRoundTrip(lot, current);
    var r := Load(Some(SaveText(lot)), current).value;
    forall i | 0 <= i < |lot|
      ensures r[i] == lot[i]
    {
      var v := lot[i].vehicle;
      assert v.(plate := "", owner := "") == v || lot[i].occupied;
    }
    assert r == lot;
  }
}
