/** The start-up pipeline of `change_color_arch-test.py`: find the first G915
    line, keep the raw `LED:` lines, turn them into LED options, and build the
    colour command. It shares the parsing pieces of `change_color.py` but
    neither remembers a selection nor asks for a colon in device lines. */
module ArchVariant {
  import opened Wrappers
  import opened PyText
  import opened Discovery

  /** `get_device_name` on the lines of a completed `ratbagctl list`: the name
      on the first line mentioning the target model, colon or not. */
  function DeviceNameIn(lines: seq<string>): (name: Option<string>)
    ensures name.None? <==> forall i :: 0 <= i < |lines| ==> !Contains(lines[i], TargetModel)
    ensures name.Some? ==>
      exists i :: 0 <= i < |lines| && Contains(lines[i], TargetModel) &&
        (forall j :: 0 <= j < i ==> !Contains(lines[j], TargetModel)) &&
        name.value == DisplayName(lines[i])
  {
    match FirstContaining(lines, TargetModel)
    case None => None
    case Some(i) => Some(DisplayName(lines[i]))
  }

  /** The list comprehension in `get_leds`: the raw `LED:` lines, in order. */
  function LedLines(lines: seq<string>): (leds: seq<string>)
    ensures |leds| <= |lines|
    ensures forall k :: 0 <= k < |leds| ==> LedMarker <= leds[k]
    ensures forall l :: l in leds <==> l in lines && LedMarker <= l
  {
    if |lines| == 0 then []
    else
      assert forall i :: 0 < i < |lines| ==> lines[i] == lines[1..][i - 1];
      if LedMarker <= lines[0] then [lines[0]] + LedLines(lines[1..]) else LedLines(lines[1..])
  }

  /** Filtering keeps the input order: the `LED:` lines of a concatenation are
      those of the first part followed by those of the second. */
  lemma {:induction false} LedLinesAppend(a: seq<string>, b: seq<string>)
    ensures LedLines(a + b) == LedLines(a) + LedLines(b)
    decreases |a|
  {
    if |a| == 0 {
      assert a + b == b;
    } else {
      assert (a + b)[1..] == a[1..] + b;
      assert (a + b)[0] == a[0];
      LedLinesAppend(a[1..], b);
    }
  }

  /** The LED options of `main` (lines 117-118): `led.split()[1][:-1]` for
      every kept line, or None where one of them raises `IndexError`. */
  function LedOptions(leds: seq<string>): (r: Option<seq<string>>)
    ensures r.Some? <==> forall k :: 0 <= k < |leds| ==> LedId(leds[k]).Some?
    ensures r.Some? ==> |r.value| == |leds|
    ensures r.Some? ==> forall k :: 0 <= k < |leds| ==> LedId(leds[k]) == Some(r.value[k])
  {
    if |leds| == 0 then Some([])
    else
      assert forall k :: 0 < k < |leds| ==> leds[k] == leds[1..][k - 1];
      match LedId(leds[0])
      case None => None
      case Some(id) =>
        match LedOptions(leds[1..])
        case None => None
        case Some(ids) => Some([id] + ids)
  }

  /** Both utilities find the same LED ids: filtering the `LED:` lines first
      and then taking ids, as this variant does, equals the single loop of
      `change_color.py`, failures included. */
  lemma {:induction false} LedOptionsAgreeWithParseLeds(lines: seq<string>)
    ensures LedOptions(LedLines(lines)) == ParseLeds(lines)
    decreases |lines|
  {
    if |lines| > 0 {
      LedOptionsAgreeWithParseLeds(lines[1..]);
      var rest := LedLines(lines[1..]);
      if LedMarker <= lines[0] {
        var leds := [lines[0]] + rest;
        assert LedLines(lines) == leds;
        assert leds[0] == lines[0];
        assert leds[1..] == rest;
      }
    }
  }

  /** How `main` ends up before its window opens. */
  datatype Startup =
    | Exit                                      // a check failed: window destroyed
    | Crash                                     // an uncaught exception
    | Ready(device: string, leds: seq<string>, options: seq<string>, selected: string)

  /** `main` up to the LED dropdown. `depsOk` and `permsOk` are the results of
      `check_dependencies` and `check_script_permissions`; `list` is the output
      of `ratbagctl list`; `ledQuery(d)` that of `ratbagctl d led get`. Only
      `CalledProcessError` is caught, so a missing tool crashes. */
  function Start(depsOk: bool, permsOk: bool, list: Run, ledQuery: string -> Run): (s: Startup)
    ensures !depsOk || !permsOk ==> s.Exit?
    ensures depsOk && permsOk && list.ToolMissing? ==> s.Crash?
    ensures depsOk && permsOk && list.ExitedNonZero? ==> s.Exit?
    ensures depsOk && permsOk && list.Completed? && (DeviceNameIn(list.lines).None? || DeviceNameIn(list.lines).value == "") ==> s.Exit?
    ensures depsOk && permsOk && list.Completed? && DeviceNameIn(list.lines).Some? && DeviceNameIn(list.lines).value != "" ==>
      var q := ledQuery(DeviceNameIn(list.lines).value);
      && (q.ToolMissing? ==> s.Crash?)
      && (q.ExitedNonZero? ==> s.Exit?)
      && (q.Completed? ==> (s.Exit? <==> LedLines(q.lines) == []) && (s.Crash? <==> ParseLeds(q.lines).None?))
    ensures s.Ready? ==> list.Completed? && DeviceNameIn(list.lines) == Some(s.device) && s.device != ""
    ensures s.Ready? ==>
      && ledQuery(s.device).Completed?
      && s.leds == LedLines(ledQuery(s.device).lines)
      && |s.options| == |s.leds| > 0
      && s.selected == s.options[0]
      && Some(s.options) == ParseLeds(ledQuery(s.device).lines)
  {
    if !depsOk || !permsOk then Exit
    else match list
      case ToolMissing => Crash
      case ExitedNonZero => Exit
      case Completed(lines) =>
        match DeviceNameIn(lines)
        case None => Exit
        case Some(device) =>
          if device == "" then Exit
          else
            match ledQuery(device)
            case ToolMissing => Crash
            case ExitedNonZero => Exit
            case Completed(out) =>
              var leds := LedLines(out);
              LedOptionsAgreeWithParseLeds(out);
              if |leds| == 0 then Exit
              else
                match LedOptions(leds)
                case None => Crash
                case Some(options) => Ready(device, leds, options, options[0])
  }

  /** Once both checks pass, start-up reaches the LED dropdown exactly when the
      first G915 line carries a name, that device reports `LED:` lines, and
      every one of them has an id. */
  lemma StartReady(list: Run, ledQuery: string -> Run)
    requires list.Completed?
    requires DeviceNameIn(list.lines).Some? && DeviceNameIn(list.lines).value != ""
    requires ledQuery(DeviceNameIn(list.lines).value).Completed?
    ensures var out := ledQuery(DeviceNameIn(list.lines).value).lines;
      Start(true, true, list, ledQuery).Ready? <==> LedLines(out) != [] && ParseLeds(out).Some?
  {
    LedOptionsAgreeWithParseLeds(ledQuery(DeviceNameIn(list.lines).value).lines);
  }
}
