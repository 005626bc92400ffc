/** Concrete runs of the model: the documented examples of the discovery and
    apply workflow, and inputs on which the two utilities part ways. */
module Scenarios {
  import opened Wrappers
  import opened PyText
  import opened Config
  import opened Discovery
  import opened Apply
  import opened ArchVariant

  /** The three tokens of a line written with single spaces. */
  lemma SplitThree(a: string, b: string, c: string)
    requires IsToken(a) && IsToken(b) && IsToken(c)
    ensures Split(a + " " + b + " " + c) == [a, b, c]
  {
    var ws := [a, b, c];
    assert ws[1..] == [b, c];
    assert ws[1..][1..] == [c];
    assert Join([c]) == c;
    assert Join([b, c]) == b + " " + c;
    assert Join(ws) == a + " " + (b + " " + c);
    assert a + " " + (b + " " + c) == a + " " + b + " " + c;
    SplitJoin(ws);
  }

  /** The keyboard beats an earlier device without the model in its name; a
      remembered device beats the keyboard. */
  lemma SelectDeviceExamples(mouse: string, keyboard: string)
    requires mouse != "" && !Contains(mouse, TargetModel) && Contains(keyboard, TargetModel)
    ensures SelectDevice([mouse, keyboard], Str("")) == keyboard
    ensures SelectDevice([mouse, keyboard], Str(mouse)) == mouse
  {
    var devices := [mouse, keyboard];
    assert devices[1] == keyboard && Contains(devices[1], TargetModel);
  }

  /** Lines `LED: <a>: on` and `LED: <b>: on` give ids a and b; a line that does
      not start with `LED:` is ignored. */
  lemma ParseLedsExample(a: string, b: string, other: string)
    requires IsToken(a) && IsToken(b)
    requires !(LedMarker <= other)
    ensures ParseLeds([LedMarker + " " + (a + ":") + " " + "on", LedMarker + " " + (b + ":") + " " + "on", other])
      == Some([a, b])
  {
    var l0 := LedMarker + " " + (a + ":") + " " + "on";
    var l1 := LedMarker + " " + (b + ":") + " " + "on";
    assert IsToken(LedMarker) && IsToken("on") && IsToken(a + ":") && IsToken(b + ":");
    SplitThree(LedMarker, a + ":", "on");
    SplitThree(LedMarker, b + ":", "on");
    assert (a + ":")[..|a + ":"| - 1] == a;
    assert (b + ":")[..|b + ":"| - 1] == b;
    assert LedMarker <= l0 && LedMarker <= l1;
    var lines := [l0, l1, other];
    assert lines[1..] == [l1, other];
    assert lines[1..][1..] == [other];
    assert [other][1..] == [];
    assert ParseLeds([other]) == Some([]);
    assert LedId(l0) == Some(a);
    assert LedId(l1) == Some(b);
    assert [l1, other][1..] == [other];
    assert [b] + [] == [b];
    assert ParseLeds([l1, other]) == Some([b]);
    assert [a] + [b] == [a, b];
  }

  /** An `LED:` line with no id makes the whole LED refresh fail, even after
      a good line. */
  lemma MalformedLedExample(device: string, good: string, c: Config)
    requires device != ""
    ensures RefreshLeds(device, Completed([good, LedMarker]), c) == MalformedLedLine
  {
    assert IsToken(LedMarker);
    SplitJoin([LedMarker]);
    assert IsMalformedLedLine(LedMarker);
    var lines := [good, LedMarker];
    assert lines[1] == LedMarker;
    ParseLedsMeaning(lines);
  }

  /** An empty device is refused before anything else. */
  lemma EmptyDeviceRefused(c: Config)
    ensures ApplyColor(c, "", "0", "ff0000") == Failure(NoDevice)
  {
  }

  /** A complete selection yields the documented command text. */
  lemma DocumentedCommand(c: Config)
    ensures ApplyColor(c, "Dev", "0", "2bdee6").Success?
    ensures ApplyColor(c, "Dev", "0", "2bdee6").value.command == "ratbagctl \"Dev\" led 0 set color 2bdee6"
  {
  }

  /** A saved file holding only the remembered device leaves every other key
      at its compiled-in default. */
  lemma LoadConfigExample(available: set<string>)
    ensures var c := LoadConfig(available, Object(map["last_device" := Str("X")]));
      && c["last_device"] == Str("X")
      && c.Keys == DefaultConfig(available).Keys
      && forall k :: k in c && k != "last_device" ==> c[k] == DefaultConfig(available)[k]
  {
  }

  /** Without a colon a list line is no device to `change_color.py`, while
      the Arch variant takes it because it mentions the model. */
  lemma ColonDivergence(index: string, name: string)
    requires IsToken(index) && IsToken(name)
    requires ':' !in index && ':' !in name && Contains(name, TargetModel)
    ensures ParseDevices([index + " " + name]) == []
    ensures DeviceNameIn([index + " " + name]) == Some(name)
  {
    var line := index + " " + name;
    SplitJoin([index, name]);
    assert [index, name][1..] == [name];
    assert Join([index, name]) == line;
    assert ':' !in line by {
      forall i | 0 <= i < |line| ensures line[i] != ':' {
        if i < |index| { assert line[i] == index[i]; }
        else if i > |index| { assert line[i] == name[i - |index| - 1]; }
      }
    }
    ContainsAt(index + " ", name, "");
    ContainsInside(name, TargetModel, index + " ");
    assert index + " " + name + "" == line;
    assert [line][1..] == [];
  }

  /** With two keyboards listed, `change_color.py` keeps the remembered second
      one while the Arch variant always takes the first. */
  lemma RememberedDivergence(first: string, second: string)
    requires IsDeviceLine(first) && IsDeviceLine(second)
    requires Contains(first, TargetModel)
    requires DisplayName(first) != DisplayName(second)
    ensures SelectDevice(ParseDevices([first, second]), Str(DisplayName(second))) == DisplayName(second)
    ensures DeviceNameIn([first, second]) == Some(DisplayName(first))
  {
    var lines := [first, second];
    assert lines[1..] == [second];
    assert [second][1..] == [];
    assert ParseDevices(lines) == [DisplayName(first), DisplayName(second)];
  }

  /** A list line `<index> <name>` with a colon in the index and the model in
      the name names that device to both utilities. */
  lemma KeyboardLine(index: string, name: string)
    requires IsToken(index) && IsToken(name) && ':' in index && Contains(name, TargetModel)
    ensures ParseDevices([index + " " + name]) == [name]
    ensures DeviceNameIn([index + " " + name]) == Some(name)
  {
    var line := index + " " + name;
    SplitJoin([index, name]);
    assert [index, name][1..] == [name];
    assert Join([index, name]) == line;
    assert ':' in line by {
      var k :| 0 <= k < |index| && index[k] == ':';
      assert line[k] == index[k];
    }
    var one: seq<string> := [line];
    assert one[1..] == [];
    ContainsAt(index + " ", name, "");
    ContainsInside(name, TargetModel, index + " ");
    assert index + " " + name + "" == line;
  }

  /** A bare `LED:` line from the keyboard: `change_color.py` catches the
      `IndexError` and reports it, while the Arch variant builds its LED menu
      outside any `try` and crashes. */
  lemma MalformedLedDivergence(index: string, name: string, c: Config, ledQuery: string -> Run)
    requires IsToken(index) && IsToken(name) && ':' in index && Contains(name, TargetModel)
    requires ledQuery(name) == Completed([LedMarker])
    ensures RefreshDevices(Completed([index + " " + name]), ledQuery, c) == DevicesFound([name], name, MalformedLedLine)
    ensures Start(true, true, Completed([index + " " + name]), ledQuery) == Crash
  {
    KeyboardLine(index, name);
    BareLedLine();
    MainReportsBareLed(name, c, ledQuery);
  }

  lemma BareLedLine()
    ensures ParseLeds([LedMarker]) == None
    ensures LedLines([LedMarker]) == [LedMarker]
  {
    assert IsMalformedLedLine(LedMarker);
    ParseLedsMeaning([LedMarker]);
    var one: seq<string> := [LedMarker];
    assert one[1..] == [];
  }

  lemma MainReportsBareLed(name: string, c: Config, ledQuery: string -> Run)
    requires name != "" && ledQuery(name) == Completed([LedMarker]) && ParseLeds([LedMarker]) == None
    ensures SelectDevice([name], Get(c, "last_device", Str(""))) == name
    ensures RefreshLeds(name, ledQuery(name), c) == MalformedLedLine
  {
  }

  /** A bare `G915` line names no device: the Arch variant exits. */
  lemma BareModelLineExits(ledQuery: string -> Run)
    ensures Start(true, true, Completed(["G915"]), ledQuery) == Exit
  {
    assert IsToken("G915");
    SplitJoin(["G915"]);
    ContainsAt("", TargetModel, "");
    assert "" + TargetModel + "" == "G915";
  }
}
