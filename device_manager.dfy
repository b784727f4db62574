/** The LCD and LED front panel: a map from screen templates to their latest values, the
    screen currently shown, browsing with the two buttons, and the text of the two LCD lines.
    What the Go code sends to the LCD and LED scripts is recorded in an output log. */
module DeviceManagers {
  import opened Wrappers
  import Decimal
  import opened DisplayTemplates
  import RgbSpaces

  const BOOT_FIRST_LINE: string := "Vnorene systemy"
  const BOOT_SECOND_LINE: string := "ZS 2017"
  /** Width of an LCD line in characters. */
  const LINE_LENGTH: nat := 16
  const DIRECTION_RX: string := "RX"
  const DIRECTION_TX: string := "TX"
  const CONVERSION_RATIO_KB: nat := 1000
  const CONVERSION_RATIO_MB: nat := 1000000
  const CONVERSION_TRESHOLD_KB_MB: nat := 10000000000
  const CONVERSION_TRESHOLD_B_KB: nat := 10000
  /** Smoothing range (ms) that is shown as "/s". */
  const BASIC_RATE: nat := 1000
  const B_UNIT: string := "B"
  const KB_UNIT: string := "kB"
  const MB_UNIT: string := "MB"

  /** What the panel has been told to show: the two LCD lines or the colour of the LED strip;
      or the panic that ends the process when a load has no colour on the scale. */
  datatype Output = Lcd(line1: string, line2: string) | Led(colour: RgbSpaces.Rgb) | LedPanic(load: real)

  const BOOT_SCREEN: Output := Lcd(BOOT_FIRST_LINE, BOOT_SECOND_LINE)

  // ---------------------------------------------------------------- LCD line formatting

  function DirectionName(direction: nat): string {
    if direction == 0 then DIRECTION_RX else DIRECTION_TX
  }

  /** The first `n` characters of `name`, or all of it when it is shorter. */
  function Truncate(name: string, n: nat): (t: string)
    ensures |t| == if |name| > n then n else |name|
    ensures t == name[..|t|]
  {
    if |name| > n then name[..n] else name
  }

  /** The unit a load is displayed in. */
  function Unit(result: real): string {
    if result < CONVERSION_TRESHOLD_B_KB as real then B_UNIT
    else if result < CONVERSION_TRESHOLD_KB_MB as real then KB_UNIT
    else MB_UNIT
  }

  function UnitRatio(unit: string): nat {
    if unit == B_UNIT then 1 else if unit == KB_UNIT then CONVERSION_RATIO_KB else CONVERSION_RATIO_MB
  }

  /** The number displayed for a load: the load in its unit, truncated towards zero. */
  function ShownValue(result: real): nat
    requires result >= 0.0
  {
    if result < CONVERSION_TRESHOLD_B_KB as real then result.Floor as nat
    else if result < CONVERSION_TRESHOLD_KB_MB as real then (result / CONVERSION_RATIO_KB as real).Floor as nat
    else (result / CONVERSION_RATIO_MB as real).Floor as nat
  }

  /** The displayed number is the load in the chosen unit, rounded down; in bytes it has at most
      four digits and in kilobytes at most seven. */
  lemma ShownValueScale(result: real)
    requires result >= 0.0
    ensures var n, k := ShownValue(result), UnitRatio(Unit(result));
            (n * k) as real <= result < ((n + 1) * k) as real
    ensures Unit(result) == B_UNIT ==> ShownValue(result) < 10000
    ensures Unit(result) == KB_UNIT ==> ShownValue(result) < 10000000
    ensures Unit(result) == MB_UNIT ==> ShownValue(result) >= 10000
  {
    var n := ShownValue(result);
    if result < CONVERSION_TRESHOLD_B_KB as real {
    } else if result < CONVERSION_TRESHOLD_KB_MB as real {
      var q := result / 1000.0;
      assert n as real <= q < (n + 1) as real;
      assert (n * 1000) as real == n as real * 1000.0;
      assert ((n + 1) * 1000) as real == (n + 1) as real * 1000.0;
    } else {
      var q := result / 1000000.0;
      assert n as real <= q < (n + 1) as real;
      assert (n * 1000000) as real == n as real * 1000000.0;
      assert ((n + 1) * 1000000) as real == (n + 1) as real * 1000000.0;
    }
  }

  /** Go's string(r) of an unsigned integer: the character with that code point, or the
      replacement character U+FFFD when the value is not a Unicode scalar value. */
  function Rune(n: nat): (s: string)
    ensures |s| == 1
  {
    if n <= 0xD7FF || (0xE000 <= n <= 0x10FFFF) then [n as char] else ['\U{FFFD}']
  }

  /** The rate suffix of the second line: "/s" for a one-second range, otherwise "/" followed
      by the one character whose code point is the range in whole seconds. */
  function Rate(smoothingRange: nat): (s: string)
    ensures |s| == 2 && s[0] == '/'
  {
    if smoothingRange == BASIC_RATE then "/s" else "/" + Rune(smoothingRange / BASIC_RATE)
  }

  /** The second LCD line: displayed number, a space, unit and rate. */
  function LoadLine(smoothingRange: nat, result: real): string
    requires result >= 0.0
  {
    Decimal.NatToString(ShownValue(result)) + " " + Unit(result) + Rate(smoothingRange)
  }

  /** The two LCD lines of a measured-load screen. The first line is the direction, a space
      and the name cut to 13 characters, so it fits the 16-character display. */
  function MeanLines(smoothingRange: nat, display: DisplayTemplate, result: real): (lines: (string, string))
    requires result >= 0.0
    ensures 3 <= |lines.0| <= LINE_LENGTH
    ensures lines.0[..3] == DirectionName(display.direction) + " "
    ensures var shown := lines.0[3..];
            |shown| == (if |display.dataTypeName| > 13 then 13 else |display.dataTypeName|) &&
            shown == display.dataTypeName[..|shown|]
    ensures lines.1 == LoadLine(smoothingRange, result)
  {
    var direction := DirectionName(display.direction);
    var truncatedName := Truncate(display.dataTypeName, LINE_LENGTH - 3);
    (direction + " " + truncatedName, LoadLine(smoothingRange, result))
  }

  /** The two LCD lines of a prediction screen: the name is cut to 11 characters so that the
      one-letter trend still fits the 16-character display after a space. */
  function PredictionLines(smoothingRange: nat, display: DisplayTemplate, result: real, state: string)
    : (lines: (string, string))
    requires result >= 0.0
    ensures |lines.0| <= LINE_LENGTH - 1 + |state|
    ensures var n := if |display.dataTypeName| > 11 then 11 else |display.dataTypeName|;
            |lines.0| == 4 + n + |state| &&
            lines.0[..3] == DirectionName(display.direction) + " " &&
            lines.0[3..3 + n] == display.dataTypeName[..n] &&
            lines.0[3 + n..] == " " + state
    ensures lines.1 == LoadLine(smoothingRange, result)
  {
    var direction := DirectionName(display.direction);
    var truncatedName := Truncate(display.dataTypeName, LINE_LENGTH - 5);
    (direction + " " + truncatedName + " " + state, LoadLine(smoothingRange, result))
  }

  /** The displayed number can be read back from the second line. */
  lemma LoadLineReadBack(smoothingRange: nat, result: real)
    requires result >= 0.0
    ensures var line := LoadLine(smoothingRange, result);
            var digits := Decimal.NatToString(ShownValue(result));
            line[..|digits|] == digits && Decimal.ParseNat(digits) == Some(ShownValue(result)) &&
            line[|digits|] == ' '
  {
    Decimal.ParseNatToString(ShownValue(result));
  }

  // ---------------------------------------------------------------- trend of a prediction

  /** Lower end of the band of "still" predictions around the actual load. */
  function LowerLimit(actualValue: real, designator: real): real {
    var lowerLimit := actualValue - actualValue * designator;
    if lowerLimit < 0.0 then 0.0 else lowerLimit
  }

  /** Upper end of the band, capped at the link bandwidth. */
  function UpperLimit(actualValue: real, designator: real, bandwidth: nat): real {
    var upperLimit := actualValue + actualValue * designator;
    if upperLimit > bandwidth as real then bandwidth as real else upperLimit
  }

  /** "S" (still) when the prediction lies in the band, "D" (drops) below it and "R" (raises)
      above it. */
  function GetState(predictedValue: real, actualValue: real, designator: real, bandwidth: nat): (state: string)
    ensures state == "S" || state == "D" || state == "R"
  {
    var lowerLimit := LowerLimit(actualValue, designator);
    var upperLimit := UpperLimit(actualValue, designator, bandwidth);
    if predictedValue >= lowerLimit && predictedValue <= upperLimit then "S"
    else if predictedValue < lowerLimit then "D"
    else "R"
  }

  function StateRank(state: string): int {
    if state == "D" then 0 else if state == "S" then 1 else 2
  }

  /** A larger prediction never gives a lower trend (D before S before R). */
  lemma GetStateMonotonic(p: real, q: real, actualValue: real, designator: real, bandwidth: nat)
    requires p <= q
    ensures StateRank(GetState(p, actualValue, designator, bandwidth)) <=
            StateRank(GetState(q, actualValue, designator, bandwidth))
  {
  }

  /** A prediction equal to the actual load is "still" whenever the band is well formed. */
  lemma GetStateStillAtActual(actualValue: real, designator: real, bandwidth: nat)
    requires 0.0 <= actualValue <= bandwidth as real && designator >= 0.0
    ensures GetState(actualValue, actualValue, designator, bandwidth) == "S"
  {
    assert actualValue * designator >= 0.0;
  }

  /** With designator 0 the trend is the sign of the difference between prediction and load. */
  lemma GetStateExact(p: real, actualValue: real, bandwidth: nat)
    requires 0.0 <= actualValue <= bandwidth as real
    ensures GetState(p, actualValue, 0.0, bandwidth) == (if p < actualValue then "D" else if p == actualValue then "S" else "R")
  {
  }

  // ---------------------------------------------------------------- searches

  /** Index of the first element equal to `x`, or |s| when there is none. */
  function FirstEqual(s: seq<DisplayTemplate>, x: DisplayTemplate): (r: nat)
    ensures r <= |s|
    ensures r < |s| ==> s[r] == x
    ensures forall j :: 0 <= j < r ==> s[j] != x
    ensures r == |s| <==> x !in s
  {
    if s == [] then 0 else if s[0] == x then 0 else 1 + FirstEqual(s[1..], x)
  }

  /** Index of the first element with the given name, or |s| when there is none. */
  function FirstNamed(s: seq<DisplayTemplate>, name: string): (r: nat)
    ensures r <= |s|
    ensures r < |s| ==> s[r].dataTypeName == name
    ensures forall j :: 0 <= j < r ==> s[j].dataTypeName != name
  {
    if s == [] then 0 else if s[0].dataTypeName == name then 0 else 1 + FirstNamed(s[1..], name)
  }

  ghost predicate HasName(s: seq<DisplayTemplate>, name: string) {
    exists j :: 0 <= j < |s| && s[j].dataTypeName == name
  }

  /** Index in `displays` of the screen to continue from: the first template equal to the
      searched one, failing that the first with its name, failing that (or with no searched
      template) 0. */
  function GetIndexOfActualDataType(displays: seq<DisplayTemplate>, searchedDisplay: Option<DisplayTemplate>)
    : (r: nat)
    ensures displays != [] ==> r < |displays|
    ensures searchedDisplay.None? ==> r == 0
    ensures searchedDisplay.Some? && searchedDisplay.value in displays ==>
              displays[r] == searchedDisplay.value && forall j :: 0 <= j < r ==> displays[j] != searchedDisplay.value
    ensures searchedDisplay.Some? && searchedDisplay.value !in displays ==>
              var name := searchedDisplay.value.dataTypeName;
              if HasName(displays, name) then
                displays[r].dataTypeName == name && forall j :: 0 <= j < r ==> displays[j].dataTypeName != name
              else r == 0
  {
    if searchedDisplay.Some? then
      var exact := FirstEqual(displays, searchedDisplay.value);
      if exact < |displays| then exact
      else
        var named := FirstNamed(displays, searchedDisplay.value.dataTypeName);
        if named < |displays| then named else 0
    else 0
  }

  /** In a sorted list without repetitions, the neighbours of the current template's position
      are not the current template. */
  lemma NeighboursDiffer(displays: seq<DisplayTemplate>, current: Option<DisplayTemplate>)
    requires StrictlySorted(displays) && displays != []
    ensures var index := GetIndexOfActualDataType(displays, current);
            && (index + 1 < |displays| ==> current != Some(displays[index + 1]))
            && (0 < index ==> current != Some(displays[index - 1]))
  {
    var index := GetIndexOfActualDataType(displays, current);
    BeforeIrreflexive(displays[index]);
  }

  /** A measured-load template of the given name and direction. */
  predicate MeanFor(d: DisplayTemplate, dataTypeName: string, direction: nat) {
    d.dataTypeName == dataTypeName && d.direction == direction && !d.prediction
  }

  /** `load` is a value findMeanLoadOfTemplate may return: the value of some measured-load
      template of that name and direction, or 0 when there is none. */
  ghost predicate IsMeanLoadOf(m: map<DisplayTemplate, real>, dataTypeName: string, direction: nat, load: real) {
    || (exists d :: d in m && MeanFor(d, dataTypeName, direction) && m[d] == load)
    || ((forall d :: d in m ==> !MeanFor(d, dataTypeName, direction)) && load == 0.0)
  }

  /** Looks for the measured load that belongs to a prediction screen. Go visits the map in
      an unspecified order, so with several candidates any of their values may come back. */
  method FindMeanLoadOfTemplate(allDisplays: map<DisplayTemplate, real>, dataTypeName: string, direction: nat)
    returns (meanLoad: real)
    ensures IsMeanLoadOf(allDisplays, dataTypeName, direction, meanLoad)
    ensures (forall d :: d in allDisplays ==> allDisplays[d] >= 0.0) ==> meanLoad >= 0.0
  {
    var todo := allDisplays.Keys;
    while todo != {}
      invariant todo <= allDisplays.Keys
      invariant forall d :: d in allDisplays && d !in todo ==> !MeanFor(d, dataTypeName, direction)
      decreases |todo|
    {
      var display :| display in todo;
      if MeanFor(display, dataTypeName, direction) {
        return allDisplays[display];
      }
      todo := todo - {display};
    }
    return 0.0;
  }

  /** The keys of the map in browsing order, collected in the map's iteration order and then
      sorted. */
  method GetSortedDisplays(allDisplays: map<DisplayTemplate, real>) returns (sorted: seq<DisplayTemplate>)
    ensures sorted == SortedDisplays(allDisplays.Keys)
  {
    var displayStack := CollectKeys(allDisplays);
    sorted := SortDisplays(displayStack);
    ListingUnique(sorted, SortedDisplays(allDisplays.Keys), allDisplays.Keys);
  }

  /** The keys of the map, each once, in the map's (unspecified) iteration order. */
  method CollectKeys(allDisplays: map<DisplayTemplate, real>) returns (displayStack: seq<DisplayTemplate>)
    ensures forall x :: x in displayStack <==> x in allDisplays
    ensures forall i, j :: 0 <= i < j < |displayStack| ==> displayStack[i] != displayStack[j]
  {
    displayStack := [];
    var todo := allDisplays.Keys;
    while todo != {}
      invariant todo <= allDisplays.Keys
      invariant forall x :: x in allDisplays ==> (x in displayStack <==> x !in todo)
      invariant forall x :: x in displayStack ==> x in allDisplays
      invariant forall i, j :: 0 <= i < j < |displayStack| ==> displayStack[i] != displayStack[j]
      decreases |todo|
    {
      var display :| display in todo;
      displayStack := displayStack + [display];
      todo := todo - {display};
    }
  }

  /** Sorts templates without repetitions into the browsing order. */
  method SortDisplays(displayStack: seq<DisplayTemplate>) returns (sorted: seq<DisplayTemplate>)
    requires forall i, j :: 0 <= i < j < |displayStack| ==> displayStack[i] != displayStack[j]
    ensures Listing(sorted, set x | x in displayStack)
  {
    sorted := [];
    ghost var seen: set<DisplayTemplate> := {};
    for i := 0 to |displayStack|
      invariant Listing(sorted, seen)
      invariant forall x :: x in seen <==> x in displayStack[..i]
    {
      assert forall j :: 0 <= j < i ==> displayStack[j] != displayStack[i];
      assert displayStack[i] !in displayStack[..i];
      InsertListing(displayStack[i], sorted, seen);
      sorted := Insert(displayStack[i], sorted);
      seen := seen + {displayStack[i]};
      assert displayStack[..i + 1] == displayStack[..i] + [displayStack[i]];
    }
    assert displayStack[..|displayStack|] == displayStack;
  }

  /** Removing a key keeps the other entries and empties a map holding only that key. */
  lemma LastKeyRemoved(m: map<DisplayTemplate, real>, d: DisplayTemplate)
    requires d in m
    ensures forall k :: k in m - {d} <==> k in m && k != d
    ensures forall k :: k in m - {d} ==> (m - {d})[k] == m[k]
    ensures |m| == 1 ==> m - {d} == map[]
  {
    assert (m - {d}).Keys == m.Keys - {d};
    if |m| == 1 {
      assert |m.Keys - {d}| == |m.Keys| - 1 == 0;
    }
  }

  /** A template renamed when it belongs to the data type, and otherwise unchanged. */
  function Rename(d: DisplayTemplate, dataTypeId: nat, dataTypeName: string): DisplayTemplate {
    if d.dataTypeId == dataTypeId then d.(dataTypeName := dataTypeName) else d
  }

  /** `after` is `before` with every template of the data type renamed and carrying the value
      of a template it was renamed from; all other entries are as they were. */
  ghost predicate Rekeyed(before: map<DisplayTemplate, real>, after: map<DisplayTemplate, real>,
                          dataTypeId: nat, dataTypeName: string)
  {
    && (forall d :: d in before && d.dataTypeId != dataTypeId ==> d in after && after[d] == before[d])
    && (forall k :: k in before && k.dataTypeId == dataTypeId ==> k.(dataTypeName := dataTypeName) in after)
    && (forall d :: d in after && d.dataTypeId != dataTypeId ==> d in before)
    && (forall d :: d in after && d.dataTypeId == dataTypeId ==>
          exists k :: k in before && k.dataTypeId == dataTypeId &&
                      k.(dataTypeName := dataTypeName) == d && after[d] == before[k])
  }

  /** When no two templates of the data type share direction and flag (so renaming cannot
      merge two of them), each renamed template carries exactly the value of its original. */
  lemma RekeyedKeepsValues(before: map<DisplayTemplate, real>, after: map<DisplayTemplate, real>,
                           dataTypeId: nat, dataTypeName: string, k: DisplayTemplate)
    requires Rekeyed(before, after, dataTypeId, dataTypeName)
    requires forall a, b :: (a in before && b in before && a.dataTypeId == dataTypeId && b.dataTypeId == dataTypeId &&
                             a.direction == b.direction && a.prediction == b.prediction) ==> a == b
    requires k in before && k.dataTypeId == dataTypeId
    ensures after[k.(dataTypeName := dataTypeName)] == before[k]
  {
    var d := k.(dataTypeName := dataTypeName);
    var k' :| k' in before && k'.dataTypeId == dataTypeId && k'.(dataTypeName := dataTypeName) == d && after[d] == before[k'];
    assert k'.direction == k.direction && k'.prediction == k.prediction;
  }

  /** First loop of modifyDataTypeName: the templates of the data type in the map's iteration
      order, their renamed versions and their values, position by position. */
  method CollectRenamings(displaysMap: map<DisplayTemplate, real>, dataTypeId: nat, dataTypeName: string)
    returns (displaysToRemove: seq<DisplayTemplate>, displaysToAdd: seq<DisplayTemplate>, valuesToAdd: seq<real>)
    ensures |displaysToRemove| == |displaysToAdd| == |valuesToAdd|
    ensures forall i :: 0 <= i < |displaysToRemove| ==>
              && displaysToRemove[i] in displaysMap
              && displaysToRemove[i].dataTypeId == dataTypeId
              && displaysToAdd[i] == displaysToRemove[i].(dataTypeName := dataTypeName)
              && valuesToAdd[i] == displaysMap[displaysToRemove[i]]
    ensures forall k :: k in displaysMap && k.dataTypeId == dataTypeId ==> k in displaysToRemove
  {
    displaysToRemove, displaysToAdd, valuesToAdd := [], [], [];
    var todo := displaysMap.Keys;
    while todo != {}
      invariant todo <= displaysMap.Keys
      invariant |displaysToRemove| == |displaysToAdd| == |valuesToAdd|
      invariant forall i :: 0 <= i < |displaysToRemove| ==>
                  && displaysToRemove[i] in displaysMap
                  && displaysToRemove[i].dataTypeId == dataTypeId
                  && displaysToAdd[i] == displaysToRemove[i].(dataTypeName := dataTypeName)
                  && valuesToAdd[i] == displaysMap[displaysToRemove[i]]
      invariant forall k :: k in displaysMap && k.dataTypeId == dataTypeId && k !in todo ==> k in displaysToRemove
      decreases |todo|
    {
      var display :| display in todo;
      if display.dataTypeId == dataTypeId {
        var updatedDisplay := DisplayTemplate(dataTypeId := display.dataTypeId, dataTypeName := dataTypeName,
                                              direction := display.direction, prediction := display.prediction);
        displaysToAdd := displaysToAdd + [updatedDisplay];
        valuesToAdd := valuesToAdd + [displaysMap[display]];
        displaysToRemove := displaysToRemove + [display];
      }
      todo := todo - {display};
    }
  }

  /** Second loop of modifyDataTypeName: deletes the listed keys one after another. */
  method RemoveKeys(m: map<DisplayTemplate, real>, keys: seq<DisplayTemplate>) returns (r: map<DisplayTemplate, real>)
    ensures forall d :: d in r <==> d in m && d !in keys
    ensures forall d :: d in r ==> r[d] == m[d]
  {
    r := m;
    for i := 0 to |keys|
      invariant forall d :: d in r <==> d in m && d !in keys[..i]
      invariant forall d :: d in r ==> r[d] == m[d]
    {
      r := r - {keys[i]};
      assert keys[..i + 1] == keys[..i] + [keys[i]];
    }
    assert keys[..|keys|] == keys;
  }

  /** Third loop of modifyDataTypeName: stores the listed entries one after another, a later
      entry for the same key overwriting an earlier one. */
  method PutEntries(m: map<DisplayTemplate, real>, keys: seq<DisplayTemplate>, values: seq<real>)
    returns (r: map<DisplayTemplate, real>)
    requires |keys| == |values|
    ensures forall d :: d in m && d !in keys ==> d in r && r[d] == m[d]
    ensures forall j :: 0 <= j < |keys| ==> keys[j] in r
    ensures forall d :: d in r ==>
              (d in m && d !in keys) || exists j :: 0 <= j < |keys| && keys[j] == d && r[d] == values[j]
  {
    r := m;
    for i := 0 to |keys|
      invariant forall d :: d in m && d !in keys[..i] ==> d in r && r[d] == m[d]
      invariant forall j :: 0 <= j < i ==> keys[j] in r
      invariant forall d :: d in r ==>
                  (d in m && d !in keys[..i]) || exists j :: 0 <= j < i && keys[j] == d && r[d] == values[j]
    {
      r := r[keys[i] := values[i]];
      assert keys[..i + 1] == keys[..i] + [keys[i]];
    }
    assert keys[..|keys|] == keys;
  }

  /** The three loops together rename exactly the templates of the data type. */
  lemma RenamingsRekey(before: map<DisplayTemplate, real>, remaining: map<DisplayTemplate, real>,
                       after: map<DisplayTemplate, real>, displaysToRemove: seq<DisplayTemplate>,
                       displaysToAdd: seq<DisplayTemplate>, valuesToAdd: seq<real>, dataTypeId: nat, dataTypeName: string)
    requires |displaysToRemove| == |displaysToAdd| == |valuesToAdd|
    requires forall i :: 0 <= i < |displaysToRemove| ==>
               && displaysToRemove[i] in before
               && displaysToRemove[i].dataTypeId == dataTypeId
               && displaysToAdd[i] == displaysToRemove[i].(dataTypeName := dataTypeName)
               && valuesToAdd[i] == before[displaysToRemove[i]]
    requires forall k :: k in before && k.dataTypeId == dataTypeId ==> k in displaysToRemove
    requires forall d :: d in remaining <==> d in before && d !in displaysToRemove
    requires forall d :: d in remaining ==> remaining[d] == before[d]
    requires forall d :: d in remaining && d !in displaysToAdd ==> d in after && after[d] == remaining[d]
    requires forall j :: 0 <= j < |displaysToAdd| ==> displaysToAdd[j] in after
    requires forall d :: d in after ==>
               (d in remaining && d !in displaysToAdd) ||
               exists j :: 0 <= j < |displaysToAdd| && displaysToAdd[j] == d && after[d] == valuesToAdd[j]
    ensures Rekeyed(before, after, dataTypeId, dataTypeName)
  {
    forall d | d in before && d.dataTypeId != dataTypeId
      ensures d in after && after[d] == before[d]
    {
      assert d !in displaysToRemove;
      assert d !in displaysToAdd;
    }
    forall k | k in before && k.dataTypeId == dataTypeId
      ensures k.(dataTypeName := dataTypeName) in after
    {
      var j :| 0 <= j < |displaysToRemove| && displaysToRemove[j] == k;
    }
    forall d | d in after
      ensures d.dataTypeId != dataTypeId ==> d in before
      ensures d.dataTypeId == dataTypeId ==>
                exists k :: k in before && k.dataTypeId == dataTypeId &&
                            k.(dataTypeName := dataTypeName) == d && after[d] == before[k]
    {
      if !(d in remaining && d !in displaysToAdd) {
        var j :| 0 <= j < |displaysToAdd| && displaysToAdd[j] == d && after[d] == valuesToAdd[j];
        assert displaysToRemove[j] in before;
      }
    }
  }

  /** The three loops of modifyDataTypeName on the map: collect the renamings, remove the old
      keys, put the renamed ones. */
  method RenameTemplates(allDisplays: map<DisplayTemplate, real>, dataTypeId: nat, dataTypeName: string)
    returns (updated: map<DisplayTemplate, real>)
    ensures Rekeyed(allDisplays, updated, dataTypeId, dataTypeName)
  {
    var displaysToRemove, displaysToAdd, valuesToAdd := CollectRenamings(allDisplays, dataTypeId, dataTypeName);
    var remaining := RemoveKeys(allDisplays, displaysToRemove);
    updated := PutEntries(remaining, displaysToAdd, valuesToAdd);
    RenamingsRekey(allDisplays, remaining, updated, displaysToRemove, displaysToAdd, valuesToAdd, dataTypeId, dataTypeName);
  }

  /** Renaming keeps every value of the map non-negative. */
  lemma RekeyedNonNegative(before: map<DisplayTemplate, real>, after: map<DisplayTemplate, real>,
                           dataTypeId: nat, dataTypeName: string)
    requires Rekeyed(before, after, dataTypeId, dataTypeName)
    requires forall d :: d in before ==> before[d] >= 0.0
    ensures forall d :: d in after ==> after[d] >= 0.0
  {
    forall d | d in after
      ensures after[d] >= 0.0
    {
      if d.dataTypeId == dataTypeId {
        var k :| k in before && k.dataTypeId == dataTypeId &&
                 k.(dataTypeName := dataTypeName) == d && after[d] == before[k];
      }
    }
  }

  // ---------------------------------------------------------------- recovery after removal

  /** `x` is the removed template itself or is browsed after it. */
  predicate AtOrAfter(removed: DisplayTemplate, x: DisplayTemplate) {
    x == removed || Before(removed, x)
  }

  ghost predicate HasAtOrAfter(keys: set<DisplayTemplate>, removed: DisplayTemplate) {
    exists x :: x in keys && AtOrAfter(removed, x)
  }

  /** The screen a removal of the current template `removed` ends on, once `keys` are left: the
      first of them in browsing order at or after `removed`, failing that the last one before it. */
  ghost predicate RecoveryTarget(keys: set<DisplayTemplate>, removed: DisplayTemplate, t: DisplayTemplate) {
    && t in keys
    && if HasAtOrAfter(keys, removed) then
         AtOrAfter(removed, t) && forall x :: x in keys && AtOrAfter(removed, x) ==> !Before(x, t)
       else
         Before(t, removed) && forall x :: x in keys && Before(x, removed) ==> !Before(t, x)
  }

  /** At most one template is the recovery target. */
  lemma RecoveryTargetUnique(keys: set<DisplayTemplate>, removed: DisplayTemplate, t: DisplayTemplate, u: DisplayTemplate)
    requires RecoveryTarget(keys, removed, t) && RecoveryTarget(keys, removed, u)
    ensures t == u
  {
    BeforeTotal(t, u);
  }

  /** While the current template is still a key, it is its own target. */
  lemma RecoveryTargetStart(keys: set<DisplayTemplate>, removed: DisplayTemplate)
    requires removed in keys
    ensures RecoveryTarget(keys, removed, removed)
  {
    forall x | x in keys && AtOrAfter(removed, x)
      ensures !Before(x, removed)
    {
      BeforeTotal(x, removed);
    }
  }

  /** Removing a key other than the target keeps the target. */
  lemma RecoveryTargetKept(keys: set<DisplayTemplate>, removed: DisplayTemplate, t: DisplayTemplate, d: DisplayTemplate)
    requires RecoveryTarget(keys, removed, t) && d != t
    ensures RecoveryTarget(keys - {d}, removed, t)
  {
    if HasAtOrAfter(keys, removed) {
      assert t in keys - {d} && AtOrAfter(removed, t);
    }
  }

  /** Removing the target itself moves the target to its neighbour in the sorted listing: the
      next key when there is one, and otherwise the previous one. */
  lemma RecoveryTargetStep(keys: set<DisplayTemplate>, removed: DisplayTemplate, sorted: seq<DisplayTemplate>, index: nat)
    requires Listing(sorted, keys) && index < |sorted| && RecoveryTarget(keys, removed, sorted[index])
    ensures index + 1 < |sorted| ==> RecoveryTarget(keys - {sorted[index]}, removed, sorted[index + 1])
    ensures index + 1 == |sorted| && 0 < index ==> RecoveryTarget(keys - {sorted[index]}, removed, sorted[index - 1])
  {
    var t := sorted[index];
    var rest := keys - {t};
    if index + 1 < |sorted| {
      var n := sorted[index + 1];
      BeforeIrreflexive(t);
      assert Before(t, n) && n in rest;
      if HasAtOrAfter(keys, removed) {
        if t != removed {
          BeforeTransitive(removed, t, n);
        }
        assert AtOrAfter(removed, n);
        forall x | x in rest && AtOrAfter(removed, x)
          ensures !Before(x, n)
        {
          var j :| 0 <= j < |sorted| && sorted[j] == x;
          if j < index {
            assert false;
          } else if j == index + 1 {
            BeforeIrreflexive(x);
          } else {
            BeforeTotal(x, n);
          }
        }
      } else {
        BeforeTotal(n, removed);
        assert false;
      }
    } else if 0 < index {
      var p := sorted[index - 1];
      assert Before(p, t) && p in rest;
      BeforeIrreflexive(t);
      forall x | x in rest
        ensures Before(x, t) && (x == p || Before(x, p)) && !AtOrAfter(removed, x)
      {
        var j :| 0 <= j < |sorted| && sorted[j] == x;
        assert j != index;
        if j < index - 1 {
          assert Before(x, p);
        }
        if !HasAtOrAfter(keys, removed) {
          assert x in keys;
        }
      }
      assert !HasAtOrAfter(rest, removed);
      BeforeTotal(p, removed);
      assert !AtOrAfter(removed, p);
      forall x | x in rest && Before(x, removed)
        ensures !Before(p, x)
      {
        BeforeTotal(p, x);
        if x != p {
          assert Before(x, p);
        }
      }
    }
  }

  /** Every entry of `a` is an entry of `b`. */
  ghost predicate SubMap(a: map<DisplayTemplate, real>, b: map<DisplayTemplate, real>) {
    forall k :: k in a ==> k in b && a[k] == b[k]
  }

  // ---------------------------------------------------------------- LED strip

  /** The point of the colour scale `updateLcdDisplay` computes for a load: SPACE_MAX divided by
      the link bandwidth, times the load, truncated by the conversion to uint16. */
  function ColourIndex(linkBandwidth: nat, value: real): int
    requires linkBandwidth > 0
  {
    (RgbSpaces.SPACE_MAX as real / linkBandwidth as real * value).Floor
  }

  /** What `updateLcdDisplay` sends: the colour of the load's point on the scale, or a panic when
      the point lies outside 0..1020. A bandwidth of 0 (a float division by zero) and points that
      do not fit uint16 count as outside. */
  function LedOutput(linkBandwidth: nat, value: real): Output {
    if linkBandwidth > 0 && 0 <= ColourIndex(linkBandwidth, value) <= RgbSpaces.SPACE_MAX as int then
      Led(RgbSpaces.ColorComponents(RgbSpaces.RgbSpace(ColourIndex(linkBandwidth, value) as RgbSpaces.uint16)))
    else
      LedPanic(value)
  }

  /** The strip shows a colour exactly when the load stays below 1021/1020 of the bandwidth;
      any larger load (for instance a window's bytes above the bandwidth when a window lasts
      longer than a second) ends the process. */
  lemma LedColouredIffWithinScale(linkBandwidth: nat, value: real)
    requires linkBandwidth > 0 && value >= 0.0
    ensures LedOutput(linkBandwidth, value).Led? <==> 1020.0 * value < 1021.0 * linkBandwidth as real
    ensures value <= linkBandwidth as real ==> LedOutput(linkBandwidth, value).Led?
  {
    ColourIndexWithinScale(linkBandwidth, value);
  }

  /** The point of a load is never negative, and lies on the scale exactly when the load stays
      below 1021/1020 of the bandwidth. */
  lemma ColourIndexWithinScale(linkBandwidth: nat, value: real)
    requires linkBandwidth > 0 && value >= 0.0
    ensures ColourIndex(linkBandwidth, value) >= 0
    ensures ColourIndex(linkBandwidth, value) <= 1020 <==> 1020.0 * value < 1021.0 * linkBandwidth as real
  {
    var bw := linkBandwidth as real;
    var x := 1020.0 / bw * value;
    ScaledBack(bw, value);
    ScaleKeepsOrder(x, 1021.0, bw);
    ScaleKeepsOrder(x, 0.0, bw);
    var k := x.Floor;
    assert k <= 1020 <==> x < 1021.0;
  }

  /** Scaling by SPACE_MAX / bandwidth and multiplying back by the bandwidth. */
  lemma ScaledBack(bw: real, value: real)
    requires bw > 0.0
    ensures 1020.0 / bw * value * bw == 1020.0 * value
  {
  }

  /** Multiplying by a positive bandwidth keeps the order. */
  lemma ScaleKeepsOrder(x: real, c: real, bw: real)
    requires bw > 0.0
    ensures x < c <==> x * bw < c * bw
  {
  }

  /** The panic is the failure of the colour-scale constructor on the computed point. */
  lemma LedPanicIffRgbSpaceFails(linkBandwidth: nat, value: real, now: string)
    requires linkBandwidth > 0 && value >= 0.0 && ColourIndex(linkBandwidth, value) < 0x1_0000
    ensures ColourIndex(linkBandwidth, value) >= 0
    ensures LedOutput(linkBandwidth, value).LedPanic? <==>
              RgbSpaces.NewRgbSpace(ColourIndex(linkBandwidth, value) as RgbSpaces.uint16, now).Failure?
  {
    ColourIndexWithinScale(linkBandwidth, value);
  }

  /** No load is red and the full bandwidth is green. */
  lemma LedEnds(linkBandwidth: nat)
    requires linkBandwidth > 0
    ensures LedOutput(linkBandwidth, 0.0) == Led(RgbSpaces.Rgb(255, 0, 0))
    ensures LedOutput(linkBandwidth, linkBandwidth as real) == Led(RgbSpaces.Rgb(0, 255, 0))
  {
    var bw := linkBandwidth as real;
    assert 1020.0 / bw * bw == 1020.0;
    assert ColourIndex(linkBandwidth, bw) == 1020;
    RgbSpaces.Endpoints();
  }

  /** Go's map index: the stored value, or 0 for a missing key. */
  function Lookup(m: map<DisplayTemplate, real>, d: DisplayTemplate): real {
    if d in m then m[d] else 0.0
  }

  /** The front panel. */
  class DeviceManager {
    var allDisplays: map<DisplayTemplate, real>
    var actualDisplay: Option<DisplayTemplate>
    var output: seq<Output>
    /** Smoothing range in milliseconds. */
    const smoothingRange: nat
    /** Fraction of the actual load that a prediction may differ by and still be "still". */
    const designator: real
    /** Link bandwidth in bytes per second. */
    const linkBandwidth: nat

    /** Loads are never negative, and the current screen is a template of the map unless
        the LCD last showed the boot message (that happens when the last template is removed,
        and the pointer then keeps the removed template). */
    ghost predicate Valid()
      reads this
    {
      && (forall d :: d in allDisplays ==> allDisplays[d] >= 0.0)
      && (|| actualDisplay.None?
          || actualDisplay.value in allDisplays
          || (|output| > 0 && output[|output| - 1] == BOOT_SCREEN))
    }

    constructor (smoothingRange: nat, designator: real, linkBandwidth: nat)
      ensures this.smoothingRange == smoothingRange && this.designator == designator
      ensures this.linkBandwidth == linkBandwidth
      ensures allDisplays == map[] && actualDisplay.None? && output == []
      ensures Valid()
    {
      this.smoothingRange := smoothingRange;
      this.designator := designator;
      this.linkBandwidth := linkBandwidth;
      allDisplays := map[];
      actualDisplay := None;
      output := [];
    }

    /** Shows the boot message (the button handlers are not part of the model). */
    method StartDeviceManager()
      requires Valid()
      modifies this
      ensures Valid()
      ensures allDisplays == old(allDisplays) && actualDisplay == old(actualDisplay)
      ensures output == old(output) + [BOOT_SCREEN]
    {
      WriteMessageOnLcd(BOOT_FIRST_LINE, BOOT_SECOND_LINE);
    }

    method WriteMessageOnLcd(line1: string, line2: string)
      modifies this
      ensures allDisplays == old(allDisplays) && actualDisplay == old(actualDisplay)
      ensures output == old(output) + [Lcd(line1, line2)]
    {
      output := output + [Lcd(line1, line2)];
    }

    /** Puts the boot message back on the LCD. */
    method ClearLcd()
      requires Valid()
      modifies this
      ensures Valid()
      ensures allDisplays == old(allDisplays) && actualDisplay == old(actualDisplay)
      ensures output == old(output) + [BOOT_SCREEN]
    {
      output := output + [BOOT_SCREEN];
    }

    /** Colours the LED strip by a load: the load's point on the colour scale, or a panic when
        the constructor of the scale refuses the point. */
    method UpdateLcdDisplay(refreshedValue: real)
      modifies this
      ensures allDisplays == old(allDisplays) && actualDisplay == old(actualDisplay)
      ensures output == old(output) + [LedOutput(linkBandwidth, refreshedValue)]
    {
      if linkBandwidth > 0 {
        var k := ColourIndex(linkBandwidth, refreshedValue);
        if 0 <= k <= RgbSpaces.SPACE_MAX as int {
          var colour := RgbSpaces.ColorComponents(RgbSpaces.RgbSpace(k as RgbSpaces.uint16));
          FlashLedStrip(colour);
          return;
        }
      }
      output := output + [LedPanic(refreshedValue)];
    }

    method FlashLedStrip(colour: RgbSpaces.Rgb)
      modifies this
      ensures allDisplays == old(allDisplays) && actualDisplay == old(actualDisplay)
      ensures output == old(output) + [Led(colour)]
    {
      output := output + [Led(colour)];
    }

    /** What showing a measured-load screen writes. */
    function MeanScreen(d: DisplayTemplate, value: real): seq<Output>
      requires value >= 0.0
    {
      var lines := MeanLines(smoothingRange, d, value);
      [Lcd(lines.0, lines.1), LedOutput(linkBandwidth, value)]
    }

    /** What showing a prediction screen writes, given the actual load it is compared with. */
    function PredictionScreen(d: DisplayTemplate, value: real, actualLoad: real): seq<Output>
      requires value >= 0.0
    {
      var state := GetState(value, actualLoad, designator, linkBandwidth);
      var lines := PredictionLines(smoothingRange, d, value, state);
      [Lcd(lines.0, lines.1), LedOutput(linkBandwidth, value)]
    }

    /** The output grew by the screen of `d` with value `value`; `actualLoad` is the load a
        prediction screen was compared with. */
    ghost predicate Shows(before: seq<Output>, d: DisplayTemplate, value: real, actualLoad: real)
      requires value >= 0.0
      reads this
    {
      ShownAfter(allDisplays, before, output, d, value, actualLoad)
    }

    /** The log `after` is `before` followed by the screen of `d` with value `value`; a
        prediction screen was compared with `actualLoad`, a measured load found in `m`. */
    ghost predicate ShownAfter(m: map<DisplayTemplate, real>, before: seq<Output>, after: seq<Output>,
                               d: DisplayTemplate, value: real, actualLoad: real)
      requires value >= 0.0
    {
      if d.prediction then
        IsMeanLoadOf(m, d.dataTypeName, d.direction, actualLoad) &&
        after == before + PredictionScreen(d, value, actualLoad)
      else
        after == before + MeanScreen(d, value)
    }

    /** The log ends with the screen of `d` (every screen is two entries long). */
    ghost predicate EndsShowing(m: map<DisplayTemplate, real>, out: seq<Output>, d: DisplayTemplate, value: real,
                                actualLoad: real)
      requires value >= 0.0
    {
      |out| >= 2 && ShownAfter(m, out[..|out| - 2], out, d, value, actualLoad)
    }

    /** What recovering from the removal of the template at `index` of the sorted listing
        `sorted` of `m` did: moved to the next template and showed it, failing that to the
        previous one, failing that wrote the boot message. */
    ghost predicate Recovery(m: map<DisplayTemplate, real>, sorted: seq<DisplayTemplate>, index: nat,
                             before: seq<Output>, after: seq<Output>, current: Option<DisplayTemplate>,
                             actualLoad: real)
    {
      && index < |sorted|
      && if index != |sorted| - 1 then
           var next := sorted[index + 1];
           current == Some(next) && next in m && m[next] >= 0.0 &&
           ShownAfter(m, before, after, next, m[next], actualLoad)
         else if index != 0 then
           var previous := sorted[index - 1];
           current == Some(previous) && previous in m && m[previous] >= 0.0 &&
           ShownAfter(m, before, after, previous, m[previous], actualLoad)
         else
           after == before + [BOOT_SCREEN]
    }

    /** After the current template `removed` and others were deleted from `before`: with
        templates left, the current screen is the recovery target among them and the log ends
        with its screen, whose prediction trend used a measured load found in `lookedUpIn`, a
        map between the remaining and the original ones; with none left, the log ends with
        the boot message. */
    ghost predicate RecoveredFrom(removed: DisplayTemplate, before: map<DisplayTemplate, real>,
                                  lookedUpIn: map<DisplayTemplate, real>, actualLoad: real)
      reads this
    {
      if allDisplays == map[] then
        |output| > 0 && output[|output| - 1] == BOOT_SCREEN
      else
        && actualDisplay.Some?
        && RecoveryTarget(allDisplays.Keys, removed, actualDisplay.value)
        && SubMap(allDisplays, lookedUpIn) && SubMap(lookedUpIn, before)
        && allDisplays[actualDisplay.value] >= 0.0
        && EndsShowing(lookedUpIn, output, actualDisplay.value, allDisplays[actualDisplay.value], actualLoad)
    }

    method UpdateDisplayByLoadI(display: DisplayTemplate, result: real)
      requires result >= 0.0
      modifies this
      ensures allDisplays == old(allDisplays) && actualDisplay == old(actualDisplay)
      ensures output == old(output) + MeanScreen(display, result)
    {
      var lines := MeanLines(smoothingRange, display, result);
      WriteMessageOnLcd(lines.0, lines.1);
      UpdateLcdDisplay(result);
    }

    method UpdateDisplayByPredictionI(display: DisplayTemplate, result: real) returns (ghost actualLoad: real)
      requires result >= 0.0
      modifies this
      ensures allDisplays == old(allDisplays) && actualDisplay == old(actualDisplay)
      ensures IsMeanLoadOf(allDisplays, display.dataTypeName, display.direction, actualLoad)
      ensures output == old(output) + PredictionScreen(display, result, actualLoad)
    {
      var load := FindMeanLoadOfTemplate(allDisplays, display.dataTypeName, display.direction);
      actualLoad := load;
      var state := GetState(result, load, designator, linkBandwidth);
      var lines := PredictionLines(smoothingRange, display, result, state);
      WriteMessageOnLcd(lines.0, lines.1);
      UpdateLcdDisplay(result);
    }

    /** A new average load: stored under its template; shown when that template is the
        current screen, or when there is no current screen yet (it then becomes current). */
    method UpdateDisplayByLoad(display: DisplayTemplate, result: real)
      requires Valid() && result >= 0.0
      modifies this
      ensures Valid()
      ensures allDisplays == old(allDisplays)[display := result]
      ensures actualDisplay == if old(actualDisplay).None? then Some(display) else old(actualDisplay)
      ensures output == old(output) +
        (if old(actualDisplay) == None || old(actualDisplay) == Some(display) then MeanScreen(display, result) else [])
    {
      allDisplays := allDisplays[display := result];
      if actualDisplay.Some? && actualDisplay.value == display {
        UpdateDisplayByLoadI(display, result);
      } else if actualDisplay.None? {
        UpdateDisplayByLoadI(display, result);
        actualDisplay := Some(display);
      }
    }

    /** A new prediction: stored and shown under the same rule as a new load, with the trend
        against the measured load of the same name and direction. */
    method UpdateDisplayByPrediction(display: DisplayTemplate, result: real) returns (ghost actualLoad: real)
      requires Valid() && result >= 0.0
      modifies this
      ensures Valid()
      ensures allDisplays == old(allDisplays)[display := result]
      ensures actualDisplay == if old(actualDisplay).None? then Some(display) else old(actualDisplay)
      ensures old(actualDisplay) == None || old(actualDisplay) == Some(display) ==>
                IsMeanLoadOf(allDisplays, display.dataTypeName, display.direction, actualLoad) &&
                output == old(output) + PredictionScreen(display, result, actualLoad)
      ensures old(actualDisplay) != None && old(actualDisplay) != Some(display) ==> output == old(output)
    {
      actualLoad := 0.0;
      allDisplays := allDisplays[display := result];
      if actualDisplay.Some? && actualDisplay.value == display {
        actualLoad := UpdateDisplayByPredictionI(display, result);
      } else if actualDisplay.None? {
        actualLoad := UpdateDisplayByPredictionI(display, result);
        actualDisplay := Some(display);
      }
    }

    /** Shows the template after position `index` of the sorted list and makes it current. */
    method SetNextDisplay(sortedDisplays: seq<DisplayTemplate>, index: nat) returns (ghost actualLoad: real)
      requires index + 1 < |sortedDisplays|
      requires forall i :: 0 <= i < |sortedDisplays| ==> sortedDisplays[i] in allDisplays
      requires Valid()
      modifies this
      ensures Valid()
      ensures allDisplays == old(allDisplays)
      ensures actualDisplay == Some(sortedDisplays[index + 1])
      ensures Shows(old(output), sortedDisplays[index + 1], allDisplays[sortedDisplays[index + 1]], actualLoad)
    {
      var nextDisplay := sortedDisplays[index + 1];
      actualLoad := 0.0;
      if !nextDisplay.prediction {
        var nextValue := Lookup(allDisplays, nextDisplay);
        var lines := MeanLines(smoothingRange, nextDisplay, nextValue);
        WriteMessageOnLcd(lines.0, lines.1);
        actualDisplay := Some(nextDisplay);
        UpdateLcdDisplay(nextValue);
      } else {
        var nextValue := Lookup(allDisplays, nextDisplay);
        var load := FindMeanLoadOfTemplate(allDisplays, nextDisplay.dataTypeName, nextDisplay.direction);
        actualLoad := load;
        var state := GetState(nextValue, load, designator, linkBandwidth);
        var lines := PredictionLines(smoothingRange, nextDisplay, nextValue, state);
        WriteMessageOnLcd(lines.0, lines.1);
        UpdateLcdDisplay(nextValue);
      }
      actualDisplay := Some(nextDisplay);
    }

    /** Shows the template before position `index` of the sorted list and makes it current. */
    method SetPreviousDisplay(sortedDisplays: seq<DisplayTemplate>, index: nat) returns (ghost actualLoad: real)
      requires 0 < index < |sortedDisplays|
      requires forall i :: 0 <= i < |sortedDisplays| ==> sortedDisplays[i] in allDisplays
      requires Valid()
      modifies this
      ensures Valid()
      ensures allDisplays == old(allDisplays)
      ensures actualDisplay == Some(sortedDisplays[index - 1])
      ensures Shows(old(output), sortedDisplays[index - 1], allDisplays[sortedDisplays[index - 1]], actualLoad)
    {
      var previousDisplay := sortedDisplays[index - 1];
      actualLoad := 0.0;
      if !previousDisplay.prediction {
        var previousValue := Lookup(allDisplays, previousDisplay);
        var lines := MeanLines(smoothingRange, previousDisplay, previousValue);
        WriteMessageOnLcd(lines.0, lines.1);
        UpdateLcdDisplay(previousValue);
      } else {
        var previousValue := Lookup(allDisplays, previousDisplay);
        var load := FindMeanLoadOfTemplate(allDisplays, previousDisplay.dataTypeName, previousDisplay.direction);
        actualLoad := load;
        var state := GetState(previousValue, load, designator, linkBandwidth);
        var lines := PredictionLines(smoothingRange, previousDisplay, previousValue, state);
        WriteMessageOnLcd(lines.0, lines.1);
        UpdateLcdDisplay(previousValue);
      }
      actualDisplay := Some(previousDisplay);
    }

    /** Left button: with at least one template, moves to the previous template of the sorted
        list unless the current one is first. */
    method HandleLeftButtonPushed() returns (ghost actualLoad: real)
      requires Valid()
      modifies this
      ensures Valid()
      ensures allDisplays == old(allDisplays)
      ensures var sorted := SortedDisplays(allDisplays.Keys);
              var index := GetIndexOfActualDataType(sorted, old(actualDisplay));
              if |allDisplays| != 0 && index != 0 then
                actualDisplay == Some(sorted[index - 1]) &&
                Shows(old(output), sorted[index - 1], allDisplays[sorted[index - 1]], actualLoad)
              else
                actualDisplay == old(actualDisplay) && output == old(output)
    {
      actualLoad := 0.0;
      if |allDisplays| != 0 {
        var sortedDisplays := GetSortedDisplays(allDisplays);
        var index := GetIndexOfActualDataType(sortedDisplays, actualDisplay);
        actualLoad := MoveLeft(sortedDisplays, index);
        assert sortedDisplays == SortedDisplays(allDisplays.Keys);
        assert index == GetIndexOfActualDataType(sortedDisplays, old(actualDisplay));
      }
    }

    /** The move of the left button once the position in the sorted list is known. */
    method MoveLeft(sortedDisplays: seq<DisplayTemplate>, index: nat) returns (ghost actualLoad: real)
      requires Valid() && index < |sortedDisplays|
      requires forall i :: 0 <= i < |sortedDisplays| ==> sortedDisplays[i] in allDisplays
      modifies this
      ensures Valid()
      ensures allDisplays == old(allDisplays)
      ensures if index != 0 then
                actualDisplay == Some(sortedDisplays[index - 1]) &&
                Shows(old(output), sortedDisplays[index - 1], allDisplays[sortedDisplays[index - 1]], actualLoad)
              else
                actualDisplay == old(actualDisplay) && output == old(output)
    {
      actualLoad := 0.0;
      if index != 0 {
        actualLoad := SetPreviousDisplay(sortedDisplays, index);
      }
    }

    /** Right button: with at least one template, moves to the next template of the sorted
        list unless the current one is last. */
    method HandleRightButtonPushed() returns (ghost actualLoad: real)
      requires Valid()
      modifies this
      ensures Valid()
      ensures allDisplays == old(allDisplays)
      ensures var sorted := SortedDisplays(allDisplays.Keys);
              var index := GetIndexOfActualDataType(sorted, old(actualDisplay));
              if |allDisplays| != 0 && index != |sorted| - 1 then
                actualDisplay == Some(sorted[index + 1]) &&
                Shows(old(output), sorted[index + 1], allDisplays[sorted[index + 1]], actualLoad)
              else
                actualDisplay == old(actualDisplay) && output == old(output)
    {
      actualLoad := 0.0;
      if |allDisplays| != 0 {
        var sortedDisplays := GetSortedDisplays(allDisplays);
        var index := GetIndexOfActualDataType(sortedDisplays, actualDisplay);
        actualLoad := MoveRight(sortedDisplays, index);
        assert sortedDisplays == SortedDisplays(allDisplays.Keys);
        assert index == GetIndexOfActualDataType(sortedDisplays, old(actualDisplay));
      }
    }

    /** The move of the right button once the position in the sorted list is known. */
    method MoveRight(sortedDisplays: seq<DisplayTemplate>, index: nat) returns (ghost actualLoad: real)
      requires Valid() && index < |sortedDisplays|
      requires forall i :: 0 <= i < |sortedDisplays| ==> sortedDisplays[i] in allDisplays
      modifies this
      ensures Valid()
      ensures allDisplays == old(allDisplays)
      ensures if index != |sortedDisplays| - 1 then
                actualDisplay == Some(sortedDisplays[index + 1]) &&
                Shows(old(output), sortedDisplays[index + 1], allDisplays[sortedDisplays[index + 1]], actualLoad)
              else
                actualDisplay == old(actualDisplay) && output == old(output)
    {
      actualLoad := 0.0;
      if index != |sortedDisplays| - 1 {
        actualLoad := SetNextDisplay(sortedDisplays, index);
      }
    }

    /** After the current template is found to be removed: show the next template of the
        sorted list, failing that the previous one, failing that the boot message (the
        current screen is then left pointing at the removed template). */
    method RecoverFromRemovedDisplay() returns (ghost actualLoad: real, ghost sorted: seq<DisplayTemplate>, ghost index: nat)
      requires Valid() && |allDisplays| != 0
      modifies this
      ensures Valid()
      ensures allDisplays == old(allDisplays)
      ensures sorted == SortedDisplays(allDisplays.Keys)
      ensures index == GetIndexOfActualDataType(sorted, old(actualDisplay))
      ensures if index != |sorted| - 1 then
                actualDisplay == Some(sorted[index + 1]) &&
                Shows(old(output), sorted[index + 1], allDisplays[sorted[index + 1]], actualLoad)
              else if index != 0 then
                actualDisplay == Some(sorted[index - 1]) &&
                Shows(old(output), sorted[index - 1], allDisplays[sorted[index - 1]], actualLoad)
              else
                |allDisplays| == 1 &&
                actualDisplay == old(actualDisplay) && output == old(output) + [BOOT_SCREEN]
      ensures || (actualDisplay.Some? && actualDisplay.value in allDisplays && actualDisplay != old(actualDisplay))
              || (|allDisplays| == 1 && output == old(output) + [BOOT_SCREEN])
    {
      var sortedDisplays := GetSortedDisplays(allDisplays);
      var i := GetIndexOfActualDataType(sortedDisplays, actualDisplay);
      NeighboursDiffer(sortedDisplays, actualDisplay);
      sorted, index := sortedDisplays, i;
      actualLoad := RecoverAt(sortedDisplays, i);
    }

    /** The choice of RecoverFromRemovedDisplay once the position in the sorted list is known:
        the neighbours of that position are not the current screen. */
    method RecoverAt(sortedDisplays: seq<DisplayTemplate>, index: nat) returns (ghost actualLoad: real)
      requires Valid() && index < |sortedDisplays| == |allDisplays|
      requires forall i :: 0 <= i < |sortedDisplays| ==> sortedDisplays[i] in allDisplays
      requires index + 1 < |sortedDisplays| ==> actualDisplay != Some(sortedDisplays[index + 1])
      requires 0 < index ==> actualDisplay != Some(sortedDisplays[index - 1])
      modifies this
      ensures Valid()
      ensures allDisplays == old(allDisplays)
      ensures if index != |sortedDisplays| - 1 then
                actualDisplay == Some(sortedDisplays[index + 1]) &&
                Shows(old(output), sortedDisplays[index + 1], allDisplays[sortedDisplays[index + 1]], actualLoad)
              else if index != 0 then
                actualDisplay == Some(sortedDisplays[index - 1]) &&
                Shows(old(output), sortedDisplays[index - 1], allDisplays[sortedDisplays[index - 1]], actualLoad)
              else
                |allDisplays| == 1 &&
                actualDisplay == old(actualDisplay) && output == old(output) + [BOOT_SCREEN]
      ensures || (actualDisplay.Some? && actualDisplay.value in allDisplays && actualDisplay != old(actualDisplay))
              || (|allDisplays| == 1 && output == old(output) + [BOOT_SCREEN])
    {
      actualLoad := 0.0;
      if index != |sortedDisplays| - 1 {
        actualLoad := SetNextDisplay(sortedDisplays, index);
      } else if index != 0 {
        actualLoad := SetPreviousDisplay(sortedDisplays, index);
      } else {
        WriteMessageOnLcd(BOOT_FIRST_LINE, BOOT_SECOND_LINE);
      }
    }

    /** Removes the listed templates one by one; whenever the one being removed is the
        current screen, recovers first. When the current screen is among them, the panel ends
        on the recovery target among the remaining templates, whatever the order of the list. */
    method DeleteDisplays(foundDisplays: seq<DisplayTemplate>)
      returns (ghost actualLoad: real, ghost lookedUpIn: map<DisplayTemplate, real>)
      requires Valid()
      requires forall i :: 0 <= i < |foundDisplays| ==> foundDisplays[i] in allDisplays
      requires forall i, j :: 0 <= i < j < |foundDisplays| ==> foundDisplays[i] != foundDisplays[j]
      modifies this
      ensures Valid()
      ensures allDisplays == old(allDisplays) - (set x | x in foundDisplays)
      ensures old(actualDisplay).None? || old(actualDisplay).value !in foundDisplays ==>
                actualDisplay == old(actualDisplay) && output == old(output)
      ensures old(actualDisplay).Some? && old(actualDisplay).value in foundDisplays ==>
                RecoveredFrom(old(actualDisplay).value, old(allDisplays), lookedUpIn, actualLoad)
    {
      actualLoad, lookedUpIn := 0.0, allDisplays;
      ghost var removed: set<DisplayTemplate> := {};
      ghost var current := old(actualDisplay);
      ghost var tracked := current.Some? && current.value in foundDisplays;
      ghost var before := allDisplays;
      for i := 0 to |foundDisplays|
        invariant Valid()
        invariant forall x :: x in removed <==> x in foundDisplays[..i]
        invariant allDisplays == before - removed
        invariant !tracked ==> actualDisplay == old(actualDisplay) && output == old(output)
        invariant tracked && current.value !in removed ==> actualDisplay == current && output == old(output)
        invariant tracked && current.value in removed ==> RecoveredFrom(current.value, before, lookedUpIn, actualLoad)
      {
        var display := foundDisplays[i];
        assert forall j :: 0 <= j < i ==> foundDisplays[j] != display;
        assert display !in foundDisplays[..i];
        assert display in allDisplays;
        assert SubMap(allDisplays, before);
        ghost var removedCurrent := if current.Some? then current.value else display;
        lookedUpIn, actualLoad :=
          DeleteTracked(display, tracked, removedCurrent, before, removedCurrent in removed, lookedUpIn, actualLoad);
        removed := removed + {display};
        assert foundDisplays[..i + 1] == foundDisplays[..i] + [display];
      }
      assert foundDisplays[..|foundDisplays|] == foundDisplays;
    }

    /** A step of deleteDisplays. When `tracked`, the step follows the removal of the current
        template `removed` from `before`: `started` says whether it is already gone, and the
        panel then rests on the recovery target; after the step it does too, unless the current
        template is still to be removed later. Otherwise the step leaves the panel as it is. */
    method DeleteTracked(display: DisplayTemplate, ghost tracked: bool, ghost removed: DisplayTemplate,
                         ghost before: map<DisplayTemplate, real>, ghost started: bool,
                         ghost lookedUpIn0: map<DisplayTemplate, real>, ghost actualLoad0: real)
      returns (ghost lookedUpIn: map<DisplayTemplate, real>, ghost actualLoad: real)
      requires Valid() && display in allDisplays && SubMap(allDisplays, before)
      requires tracked && started ==> RecoveredFrom(removed, before, lookedUpIn0, actualLoad0)
      requires tracked && !started ==> actualDisplay == Some(removed) && removed in allDisplays
      requires !tracked ==> actualDisplay != Some(display)
      modifies this
      ensures Valid()
      ensures allDisplays == old(allDisplays) - {display}
      ensures tracked && (started || display == removed) ==> RecoveredFrom(removed, before, lookedUpIn, actualLoad)
      ensures !(tracked && (started || display == removed)) ==>
                actualDisplay == old(actualDisplay) && output == old(output)
    {
      ghost var m := allDisplays;
      ghost var out := output;
      ghost var t := if actualDisplay.Some? then actualDisplay.value else display;
      if tracked && !started {
        RecoveryTargetStart(m.Keys, removed);
      }
      var sorted, index, load := DeleteDisplay(display);
      lookedUpIn, actualLoad := lookedUpIn0, actualLoad0;
      if tracked && display == t && allDisplays != map[] {
        lookedUpIn, actualLoad := m, load;
        RecoveryMoves(removed, m, display, sorted, index, out, output, actualDisplay, load);
      } else if tracked && started && display != t {
        RecoveryTargetKept(m.Keys, removed, t, display);
        assert allDisplays.Keys == m.Keys - {display};
      }
    }

    /** When the recovery target is removed and templates remain, the recovery moves the panel
        to the new target and ends the log with its screen. */
    lemma RecoveryMoves(removed: DisplayTemplate, m: map<DisplayTemplate, real>, display: DisplayTemplate,
                        sorted: seq<DisplayTemplate>, index: nat, out: seq<Output>, after: seq<Output>,
                        current: Option<DisplayTemplate>, actualLoad: real)
      requires display in m && RecoveryTarget(m.Keys, removed, display)
      requires sorted == SortedDisplays(m.Keys) && index < |sorted| && sorted[index] == display
      requires Recovery(m, sorted, index, out, after, current, actualLoad)
      requires |sorted| != 1
      ensures current.Some? && current.value in m && current.value != display && m[current.value] >= 0.0
      ensures RecoveryTarget(m.Keys - {display}, removed, current.value)
      ensures EndsShowing(m, after, current.value, m[current.value], actualLoad)
    {
      RecoveryTargetStep(m.Keys, removed, sorted, index);
      BeforeIrreflexive(display);
      assert after[..|after| - 2] == out;
    }

    /** One step of deleteDisplays: when the template is the current screen, recovers first
        (next template of the sorted list, else the previous one, else the boot message), then
        removes it. */
    method DeleteDisplay(display: DisplayTemplate)
      returns (ghost sorted: seq<DisplayTemplate>, ghost index: nat, ghost actualLoad: real)
      requires Valid() && display in allDisplays
      modifies this
      ensures Valid()
      ensures allDisplays == old(allDisplays) - {display}
      ensures old(actualDisplay) != Some(display) ==> actualDisplay == old(actualDisplay) && output == old(output)
      ensures old(actualDisplay) == Some(display) ==>
                && sorted == SortedDisplays(old(allDisplays).Keys) && index < |sorted| && sorted[index] == display
                && Recovery(old(allDisplays), sorted, index, old(output), output, actualDisplay, actualLoad)
                && (|sorted| == 1 ==> allDisplays == map[] && actualDisplay == old(actualDisplay))
    {
      sorted, index, actualLoad := [], 0, 0.0;
      if actualDisplay.Some? && actualDisplay.value == display {
        actualLoad, sorted, index := RecoverFromRemovedDisplay();
        assert sorted[index] == display;
        assert Recovery(allDisplays, sorted, index, old(output), output, actualDisplay, actualLoad);
      }
      var remaining := allDisplays;
      LastKeyRemoved(remaining, display);
      allDisplays := remaining - {display};
    }

    /** Renames every template of a data type, keeping its id, direction, flag and value; the
        current screen is renamed too when it belongs to that data type. The Go code reads the
        current screen through a pointer without checking for nil, hence the precondition. */
    method ModifyDataTypeName(dataTypeId: nat, dataTypeName: string)
      requires Valid() && actualDisplay.Some?
      modifies this
      ensures Valid()
      ensures Rekeyed(old(allDisplays), allDisplays, dataTypeId, dataTypeName)
      ensures actualDisplay == Some(Rename(old(actualDisplay).value, dataTypeId, dataTypeName))
      ensures output == old(output)
    {
      var updated := RenameTemplates(allDisplays, dataTypeId, dataTypeName);
      RekeyedNonNegative(allDisplays, updated, dataTypeId, dataTypeName);
      allDisplays := updated;
      if actualDisplay.value.dataTypeId == dataTypeId {
        actualDisplay := Some(actualDisplay.value.(dataTypeName := dataTypeName));
      }
    }

    /** Removes every template of a data type; when the current screen is one of them, the
        panel ends on the recovery target among the remaining templates. */
    method RemoveDataType(dataTypeId: nat) returns (ghost actualLoad: real, ghost lookedUpIn: map<DisplayTemplate, real>)
      requires Valid()
      modifies this
      ensures Valid()
      ensures allDisplays == old(allDisplays) - (set d | d in old(allDisplays) && d.dataTypeId == dataTypeId)
      ensures !(old(actualDisplay).Some? && old(actualDisplay).value in old(allDisplays) &&
                old(actualDisplay).value.dataTypeId == dataTypeId) ==>
                actualDisplay == old(actualDisplay) && output == old(output)
      ensures old(actualDisplay).Some? && old(actualDisplay).value in old(allDisplays) &&
              old(actualDisplay).value.dataTypeId == dataTypeId ==>
                RecoveredFrom(old(actualDisplay).value, old(allDisplays), lookedUpIn, actualLoad)
    {
      var foundDisplays := CollectDisplays(dataTypeId, false);
      actualLoad, lookedUpIn := DeleteDisplays(foundDisplays);
    }

    /** Removes the prediction templates of a data type; when the current screen is one of
        them, the panel ends on the recovery target among the remaining templates. */
    method TurnOffPrediction(dataTypeId: nat)
      returns (ghost actualLoad: real, ghost lookedUpIn: map<DisplayTemplate, real>)
      requires Valid()
      modifies this
      ensures Valid()
      ensures allDisplays == old(allDisplays) -
                (set d | d in old(allDisplays) && d.dataTypeId == dataTypeId && d.prediction)
      ensures !(old(actualDisplay).Some? && old(actualDisplay).value in old(allDisplays) &&
                old(actualDisplay).value.dataTypeId == dataTypeId && old(actualDisplay).value.prediction) ==>
                actualDisplay == old(actualDisplay) && output == old(output)
      ensures old(actualDisplay).Some? && old(actualDisplay).value in old(allDisplays) &&
              old(actualDisplay).value.dataTypeId == dataTypeId && old(actualDisplay).value.prediction ==>
                RecoveredFrom(old(actualDisplay).value, old(allDisplays), lookedUpIn, actualLoad)
    {
      var foundDisplays := CollectDisplays(dataTypeId, true);
      actualLoad, lookedUpIn := DeleteDisplays(foundDisplays);
    }

    /** The templates of a data type (only its prediction templates when `onlyPrediction`),
        in the map's iteration order. */
    method CollectDisplays(dataTypeId: nat, onlyPrediction: bool) returns (found: seq<DisplayTemplate>)
      ensures forall i :: 0 <= i < |found| ==> found[i] in allDisplays
      ensures forall i, j :: 0 <= i < j < |found| ==> found[i] != found[j]
      ensures forall d :: d in found <==>
                d in allDisplays && d.dataTypeId == dataTypeId && (onlyPrediction ==> d.prediction)
    {
      found := [];
      var todo := allDisplays.Keys;
      while todo != {}
        invariant todo <= allDisplays.Keys
        invariant forall i :: 0 <= i < |found| ==> found[i] in allDisplays && found[i] !in todo
        invariant forall i, j :: 0 <= i < j < |found| ==> found[i] != found[j]
        invariant forall d :: d in found <==>
                    d in allDisplays && d !in todo && d.dataTypeId == dataTypeId && (onlyPrediction ==> d.prediction)
        decreases |todo|
      {
        var display :| display in todo;
        if display.dataTypeId == dataTypeId && (onlyPrediction ==> display.prediction) {
          found := found + [display];
        }
        todo := todo - {display};
      }
    }
  }
}
