/** Device and LED discovery in `change_color.py`: turning the lines printed by
    `ratbagctl list` and `ratbagctl <device> led get` into choices, and picking
    the default choice for each. */
module Discovery {
  import opened Wrappers
  import opened PyText
  import opened Config

  /** One run of `ratbagctl` with `check=True`: its standard output split into
      lines, or the exception it raised -- `FileNotFoundError` when the tool
      is not installed, `CalledProcessError` when it exits non-zero. */
  datatype Run = Completed(lines: seq<string>) | ToolMissing | ExitedNonZero

  /** The keyboard model the device list prefers. */
  const TargetModel := "G915"

  /** The prefix that marks an LED line in `led get` output. */
  const LedMarker := "LED:"

  /** `" ".join(line.split()[1:])`: the display name after the index token,
      its tokens separated by single spaces however the line spaced them. */
  function DisplayName(line: string): (name: string)
    ensures |Split(line)| > 0 ==> Split(name) == Split(line)[1..]
    ensures SingleSpaced(name)
    ensures name == "" <==> |Split(line)| <= 1
  {
    var t := Split(line);
    if |t| <= 1 then ""
    else
      SplitJoin(t[1..]);
      JoinSingleSpaced(t[1..]);
      Join(t[1..])
  }

  /** The display name is the one single-spaced string whose tokens are
      those after the index token. */
  lemma DisplayNameUnique(line: string, other: string)
    requires |Split(line)| > 0
    requires SingleSpaced(other) && Split(other) == Split(line)[1..]
    ensures other == DisplayName(line)
  {
    SingleSpacedUnique(other, DisplayName(line));
  }

  /** A line of `ratbagctl list` that names a device. */
  predicate IsDeviceLine(line: string) {
    ':' in line && |Split(line)| > 1
  }

  /** The `devices` list built by `refresh_devices` (lines 286-290). */
  function ParseDevices(lines: seq<string>): (devices: seq<string>)
    ensures |devices| <= |lines|
    ensures forall k :: 0 <= k < |devices| ==> devices[k] != ""
    ensures forall name :: name in devices <==>
      exists i :: 0 <= i < |lines| && IsDeviceLine(lines[i]) && DisplayName(lines[i]) == name
  {
    if |lines| == 0 then []
    else
      var rest := ParseDevices(lines[1..]);
      assert forall i :: 0 < i < |lines| ==> lines[i] == lines[1..][i - 1];
      if IsDeviceLine(lines[0]) then [DisplayName(lines[0])] + rest else rest
  }

  /** Device parsing works line by line: the devices of a concatenation are
      the devices of each part, in order. */
  lemma {:induction false} ParseDevicesAppend(a: seq<string>, b: seq<string>)
    ensures ParseDevices(a + b) == ParseDevices(a) + ParseDevices(b)
    decreases |a|
  {
    if |a| == 0 {
      assert a + b == b;
    } else {
      assert (a + b)[1..] == a[1..] + b;
      ParseDevicesAppend(a[1..], b);
    }
  }

  /** Lines that are not device lines contribute nothing, wherever they appear. */
  lemma ParseDevicesIgnoresNoise(a: seq<string>, noise: seq<string>, b: seq<string>)
    requires forall i :: 0 <= i < |noise| ==> !IsDeviceLine(noise[i])
    ensures ParseDevices(a + noise + b) == ParseDevices(a + b)
  {
    NoDevicesInNoise(noise);
    ParseDevicesAppend(a + noise, b);
    ParseDevicesAppend(a, noise);
    ParseDevicesAppend(a, b);
  }

  lemma {:induction false} NoDevicesInNoise(noise: seq<string>)
    requires forall i :: 0 <= i < |noise| ==> !IsDeviceLine(noise[i])
    ensures ParseDevices(noise) == []
    decreases |noise|
  {
    if |noise| > 0 {
      NoDevicesInNoise(noise[1..]);
    }
  }

  /** `last and last in items`: the remembered value is a non-empty string
      that is one of the items. */
  predicate Remembered(last: Value, items: seq<string>) {
    last.Str? && last.s != "" && last.s in items
  }

  /** The position of the first item containing `sub`, if any. */
  function FirstContaining(items: seq<string>, sub: string): (r: Option<nat>)
    ensures r.Some? ==> r.value < |items| && Contains(items[r.value], sub)
    ensures r.Some? ==> forall j :: 0 <= j < r.value ==> !Contains(items[j], sub)
    ensures r.None? <==> forall j :: 0 <= j < |items| ==> !Contains(items[j], sub)
  {
    if |items| == 0 then None
    else if Contains(items[0], sub) then Some(0)
    else
      assert forall j :: 0 < j < |items| ==> items[j] == items[1..][j - 1];
      match FirstContaining(items[1..], sub)
      case None => None
      case Some(k) => Some(k + 1)
  }

  /** The device chosen by `refresh_devices` (lines 299-311) from a non-empty
      list: the remembered device, else the first whose name contains the
      target model, else the first device. */
  function SelectDevice(devices: seq<string>, last: Value): (d: string)
    requires |devices| > 0
    ensures d in devices
    ensures Remembered(last, devices) ==> d == last.s
    ensures !Remembered(last, devices) && (exists i :: 0 <= i < |devices| && Contains(devices[i], TargetModel)) ==>
      exists i :: 0 <= i < |devices| && devices[i] == d && Contains(d, TargetModel) &&
        forall j :: 0 <= j < i ==> !Contains(devices[j], TargetModel)
    ensures !Remembered(last, devices) && (forall i :: 0 <= i < |devices| ==> !Contains(devices[i], TargetModel)) ==>
      d == devices[0]
  {
    if Remembered(last, devices) then last.s
    else
      match FirstContaining(devices, TargetModel)
      case Some(i) => devices[i]
      case None => devices[0]
  }

  /** `line.split()[1][:-1]`: the second token without its last character, or
      None where Python raises `IndexError` for want of a second token. */
  function LedId(line: string): (id: Option<string>)
    ensures id.Some? <==> |Split(line)| >= 2
    ensures id.Some? ==> id.value + [Split(line)[1][|Split(line)[1]| - 1]] == Split(line)[1]
  {
    var t := Split(line);
    if |t| < 2 then None else Some(t[1][..|t[1]| - 1])
  }

  /** An `LED:` line whose id cannot be taken. */
  predicate IsMalformedLedLine(line: string) {
    LedMarker <= line && |Split(line)| < 2
  }

  /** The `leds` list built by `refresh_leds` (lines 329-333): the id of every
      `LED:` line in order, or None when one of them makes the loop raise. */
  function ParseLeds(lines: seq<string>): (r: Option<seq<string>>)
    ensures r.Some? ==> |r.value| <= |lines|
  {
    if |lines| == 0 then Some([])
    else
      var rest := ParseLeds(lines[1..]);
      if LedMarker <= lines[0] then
        match LedId(lines[0])
        case None => None
        case Some(id) =>
          match rest
          case None => None
          case Some(ids) => Some([id] + ids)
      else rest
  }

  /** LED parsing fails exactly when some `LED:` line lacks a second token;
      otherwise its ids are exactly those of the `LED:` lines. */
  lemma {:induction false} ParseLedsMeaning(lines: seq<string>)
    ensures ParseLeds(lines).None? <==> exists i :: 0 <= i < |lines| && IsMalformedLedLine(lines[i])
    ensures ParseLeds(lines).Some? ==> forall id :: id in ParseLeds(lines).value <==>
      exists i :: 0 <= i < |lines| && LedMarker <= lines[i] && LedId(lines[i]) == Some(id)
    decreases |lines|
  {
    if |lines| > 0 {
      assert forall i :: 0 < i < |lines| ==> lines[i] == lines[1..][i - 1];
      ParseLedsMeaning(lines[1..]);
    }
  }

  /** LED parsing works line by line too: it fails on a concatenation exactly
      when it fails on a part, and otherwise concatenates the parts' ids. */
  lemma {:induction false} ParseLedsAppend(a: seq<string>, b: seq<string>)
    ensures ParseLeds(a + b) ==
      (if ParseLeds(a).Some? && ParseLeds(b).Some? then Some(ParseLeds(a).value + ParseLeds(b).value) else None)
    decreases |a|
  {
    if |a| == 0 {
      assert a + b == b;
      if ParseLeds(b).Some? {
        assert [] + ParseLeds(b).value == ParseLeds(b).value;
      }
    } else {
      var ab := a + b;
      assert ab[1..] == a[1..] + b;
      assert ab[0] == a[0];
      ParseLedsAppend(a[1..], b);
      var tail := ParseLeds(ab[1..]);
      if LedMarker <= a[0] {
        match LedId(a[0])
        case None =>
          assert ParseLeds(ab) == None;
          assert ParseLeds(a) == None;
        case Some(id) =>
          assert ParseLeds(ab) == if tail.Some? then Some([id] + tail.value) else None;
          assert ParseLeds(a) == if ParseLeds(a[1..]).Some? then Some([id] + ParseLeds(a[1..]).value) else None;
          if ParseLeds(a[1..]).Some? && ParseLeds(b).Some? {
            var x, y := ParseLeds(a[1..]).value, ParseLeds(b).value;
            assert [id] + (x + y) == ([id] + x) + y;
          }
      } else {
        assert ParseLeds(ab) == tail;
        assert ParseLeds(a) == ParseLeds(a[1..]);
      }
    }
  }

  /** The LED chosen by `refresh_leds` (lines 342-346) from a non-empty list:
      the remembered LED if present, else the first. */
  function SelectLed(leds: seq<string>, last: Value): (led: string)
    requires |leds| > 0
    ensures led in leds
    ensures Remembered(last, leds) ==> led == last.s
    ensures !Remembered(last, leds) ==> led == leds[0]
  {
    if Remembered(last, leds) then last.s else leds[0]
  }

  /** What `refresh_leds` ends with. */
  datatype LedRefresh =
    | Skipped                                   // no device selected: returns at once
    | LedQueryFailed                            // `led get` raised
    | MalformedLedLine                          // an `LED:` line raised IndexError
    | NoLeds                                    // "No LEDs found on the device."
    | LedsFound(leds: seq<string>, selected: string)

  /** `refresh_leds` for the device in the device box; `query` is the output
      of `ratbagctl <device> led get`. */
  function RefreshLeds(device: string, query: Run, c: Config): (r: LedRefresh)
    ensures r.Skipped? <==> device == ""
    ensures r.LedQueryFailed? <==> device != "" && !query.Completed?
    ensures r.MalformedLedLine? <==> device != "" && query.Completed? && ParseLeds(query.lines).None?
    ensures r.NoLeds? <==> device != "" && query.Completed? && ParseLeds(query.lines) == Some([])
    ensures r.LedsFound? ==> query.Completed? && ParseLeds(query.lines) == Some(r.leds) && r.selected in r.leds
    ensures r.LedsFound? && Remembered(Get(c, "last_led", Str("")), r.leds) ==> r.selected == c["last_led"].s
    ensures r.LedsFound? ==> r.selected == SelectLed(r.leds, Get(c, "last_led", Str("")))
  {
    if device == "" then Skipped
    else if !query.Completed? then LedQueryFailed
    else
      match ParseLeds(query.lines)
      case None => MalformedLedLine
      case Some(leds) =>
        if |leds| == 0 then NoLeds
        else LedsFound(leds, SelectLed(leds, Get(c, "last_led", Str(""))))
  }

  /** What `refresh_devices` ends with. */
  datatype DeviceRefresh =
    | ListFailed                                // `list` raised
    | NoDevices                                 // "No compatible devices found."
    | DevicesFound(devices: seq<string>, selected: string, leds: LedRefresh)

  /** `refresh_devices`: parse the list, choose a device, then refresh its
      LEDs; `ledQuery(d)` is the output of `ratbagctl d led get`. */
  function RefreshDevices(list: Run, ledQuery: string -> Run, c: Config): (r: DeviceRefresh)
    ensures r.ListFailed? <==> !list.Completed?
    ensures r.NoDevices? <==> list.Completed? && ParseDevices(list.lines) == []
    ensures r.DevicesFound? ==> list.Completed? && r.devices == ParseDevices(list.lines)
    ensures r.DevicesFound? ==> r.selected in r.devices
    ensures r.DevicesFound? ==> r.selected == SelectDevice(r.devices, Get(c, "last_device", Str("")))
    ensures r.DevicesFound? ==> !r.leds.Skipped?
    ensures r.DevicesFound? ==> r.leds == RefreshLeds(r.selected, ledQuery(r.selected), c)
  {
    match list
    case Completed(lines) =>
      var devices := ParseDevices(lines);
      if |devices| == 0 then NoDevices
      else
        var selected := SelectDevice(devices, Get(c, "last_device", Str("")));
        DevicesFound(devices, selected, RefreshLeds(selected, ledQuery(selected), c))
    case _ => ListFailed
  }
}
