/** "Apply Color" in `change_color.py`: the three emptiness checks, the update
    of the remembered selection, and the `ratbagctl` command line it hands to
    the shell. The command is read back by a small model of how a POSIX shell
    splits a command line into words. */
module Apply {
  import opened Wrappers
  import opened Config
  import Discovery

  /** The shell command that sets one LED's colour. Both utilities build it the
      same way: the device in double quotes, the LED and colour unquoted. */
  function ColorCommand(device: string, led: string, color: string): string
  {
    "ratbagctl \"" + device + "\" led " + led + " set color " + color
  }

  // ---------------------------------------------------------------------
  // Reading a command line the way `sh -c` splits it into words. Only
  // blanks, double quotes and characters with no meaning to the shell are
  // read; any other character yields None ("not modelled").

  /** Separates words outside quotes. */
  predicate IsBlank(c: char) {
    c == ' ' || c == '\t'
  }

  /** Characters that stand for themselves outside quotes. */
  predicate IsPlain(c: char) {
    || 'a' <= c <= 'z' || 'A' <= c <= 'Z' || '0' <= c <= '9'
    || c == '-' || c == '_' || c == '.' || c == ',' || c == ':' || c == '+'
    || c == '@' || c == '%' || c == '/'
  }

  /** Characters that stand for themselves between double quotes. */
  predicate IsQuotable(c: char) {
    c != '"' && c != '$' && c != '`' && c != '\\'
  }

  /** A word the shell passes on unchanged without quoting. */
  predicate IsPlainWord(w: string) {
    |w| > 0 && forall i :: 0 <= i < |w| ==> IsPlain(w[i])
  }

  /** Text the shell passes on unchanged between double quotes. */
  predicate QuotesSafely(s: string) {
    forall i :: 0 <= i < |s| ==> IsQuotable(s[i])
  }

  /** Length of the leading run of quotable characters. */
  function QuotedLength(s: string): (n: nat)
    ensures n <= |s|
    ensures n < |s| ==> !IsQuotable(s[n])
  {
    if |s| == 0 || !IsQuotable(s[0]) then 0 else 1 + QuotedLength(s[1..])
  }

  /** Reads the word at the start of `s`: its text with quotes removed and the
      number of characters it spans, or None for text outside the model or
      an unterminated quote. */
  function ReadWord(s: string): (r: Option<(string, nat)>)
    ensures r.Some? ==> r.value.1 <= |s|
    ensures r.Some? && |s| > 0 && !IsBlank(s[0]) ==> r.value.1 > 0
    decreases |s|
  {
    if |s| == 0 || IsBlank(s[0]) then Some(("", 0))
    else if s[0] == '"' then
      var q := QuotedLength(s[1..]);
      if q + 1 < |s| && s[q + 1] == '"' then
        match ReadWord(s[q + 2..])
        case None => None
        case Some((w, n)) => Some((s[1..q + 1] + w, q + 2 + n))
      else None
    else if IsPlain(s[0]) then
      match ReadWord(s[1..])
      case None => None
      case Some((w, n)) => Some(([s[0]] + w, n + 1))
    else None
  }

  /** The argument vector the shell builds from the command line `s`. */
  function ShellWords(s: string): Option<seq<string>>
    decreases |s|
  {
    if |s| == 0 then Some([])
    else if IsBlank(s[0]) then ShellWords(s[1..])
    else
      match ReadWord(s)
      case None => None
      case Some((w, n)) =>
        match ShellWords(s[n..])
        case None => None
        case Some(ws) => Some([w] + ws)
  }

  function Prepend(w: string, ws: Option<seq<string>>): Option<seq<string>> {
    match ws
    case None => None
    case Some(rest) => Some([w] + rest)
  }

  lemma {:induction false} ReadPlainWord(w: string, rest: string)
    requires forall i :: 0 <= i < |w| ==> IsPlain(w[i])
    requires |rest| == 0 || IsBlank(rest[0])
    ensures ReadWord(w + rest) == Some((w, |w|))
    decreases |w|
  {
    if |w| == 0 {
      assert w + rest == rest;
    } else {
      assert (w + rest)[1..] == w[1..] + rest;
      ReadPlainWord(w[1..], rest);
      assert [w[0]] + w[1..] == w;
    }
  }

  lemma {:induction false} QuotedLengthUpToQuote(d: string, rest: string)
    requires QuotesSafely(d)
    ensures QuotedLength(d + "\"" + rest) == |d|
    decreases |d|
  {
    if |d| > 0 {
      assert (d + "\"" + rest)[1..] == d[1..] + "\"" + rest;
      QuotedLengthUpToQuote(d[1..], rest);
    }
  }

  /** The text between the quotes and what follows the closing quote. */
  lemma QuotedWordParts(d: string, rest: string)
    ensures var s := "\"" + d + "\"" + rest;
      && s[0] == '"'
      && s[1..] == d + "\"" + rest
      && s[|d| + 1] == '"'
      && s[|d| + 2..] == rest
      && s[1..|d| + 1] == d
  {
  }

  lemma ReadQuotedWord(d: string, rest: string)
    requires QuotesSafely(d)
    requires |rest| == 0 || IsBlank(rest[0])
    ensures ReadWord("\"" + d + "\"" + rest) == Some((d, |d| + 2))
  {
    var s := "\"" + d + "\"" + rest;
    QuotedWordParts(d, rest);
    QuotedLengthUpToQuote(d, rest);
    assert QuotedLength(s[1..]) == |d|;
    assert ReadWord(rest) == Some(("", 0)) by {
      ReadPlainWord("", rest);
      assert "" + rest == rest;
    }
    assert d + "" == d;
  }

  /** A word followed by a blank is the shell's first word. */
  lemma WordThenBlank(s: string, w: string, n: nat)
    requires |s| > 0 && !IsBlank(s[0])
    requires ReadWord(s) == Some((w, n))
    ensures ShellWords(s) == Prepend(w, ShellWords(s[n..]))
  {
  }

  lemma PlainWordThen(w: string, rest: string)
    requires IsPlainWord(w)
    ensures ShellWords(w + " " + rest) == Prepend(w, ShellWords(rest))
  {
    var s := w + (" " + rest);
    assert w + " " + rest == s;
    ReadPlainWord(w, " " + rest);
    WordThenBlank(s, w, |w|);
    assert s[|w|..] == " " + rest;
    assert (" " + rest)[1..] == rest;
  }

  lemma PlainWordLast(w: string)
    requires IsPlainWord(w)
    ensures ShellWords(w) == Some([w])
  {
    ReadPlainWord(w, "");
    assert w + "" == w;
    WordThenBlank(w, w, |w|);
    assert w[|w|..] == "";
    assert [w] + [] == [w];
  }

  lemma QuotedWordThen(d: string, rest: string)
    requires QuotesSafely(d)
    ensures ShellWords("\"" + d + "\"" + " " + rest) == Prepend(d, ShellWords(rest))
  {
    var s := "\"" + d + "\"" + (" " + rest);
    assert "\"" + d + "\"" + " " + rest == s;
    ReadQuotedWord(d, " " + rest);
    WordThenBlank(s, d, |d| + 2);
    assert s[|d| + 2..] == " " + rest;
    assert (" " + rest)[1..] == rest;
  }

  /** The command, cut at the blanks that separate its words. */
  function CommandPieces(device: string, led: string, color: string): string {
    "ratbagctl" + " " + ("\"" + device + "\"" + " " + ("led" + " " + (led + " " + ("set" + " " + ("color" + " " + color)))))
  }

  lemma CommandPiecesAgree(device: string, led: string, color: string)
    ensures ColorCommand(device, led, color) == CommandPieces(device, led, color)
  {
  }

  lemma SetColorWords(color: string)
    requires IsPlainWord(color)
    ensures ShellWords("set" + " " + ("color" + " " + color)) == Some(["set", "color", color])
  {
    assert IsPlainWord("color") && IsPlainWord("set");
    PlainWordLast(color);
    PlainWordThen("color", color);
    assert ["color"] + [color] == ["color", color];
    PlainWordThen("set", "color" + " " + color);
    assert ["set"] + ["color", color] == ["set", "color", color];
  }

  lemma LedSetColorWords(led: string, color: string)
    requires IsPlainWord(led) && IsPlainWord(color)
    ensures ShellWords("led" + " " + (led + " " + ("set" + " " + ("color" + " " + color)))) ==
      Some(["led", led, "set", "color", color])
  {
    assert IsPlainWord("led");
    var tail := "set" + " " + ("color" + " " + color);
    SetColorWords(color);
    PlainWordThen(led, tail);
    assert [led] + ["set", "color", color] == [led, "set", "color", color];
    PlainWordThen("led", led + " " + tail);
    assert ["led"] + [led, "set", "color", color] == ["led", led, "set", "color", color];
  }

  lemma CommandPiecesWords(device: string, led: string, color: string)
    requires QuotesSafely(device) && IsPlainWord(led) && IsPlainWord(color)
    ensures ShellWords(CommandPieces(device, led, color)) ==
      Some(["ratbagctl", device, "led", led, "set", "color", color])
  {
    assert IsPlainWord("ratbagctl");
    var tail := "led" + " " + (led + " " + ("set" + " " + ("color" + " " + color)));
    LedSetColorWords(led, color);
    QuotedWordThen(device, tail);
    var w1 := [device] + ["led", led, "set", "color", color];
    PlainWordThen("ratbagctl", "\"" + device + "\"" + " " + tail);
    assert ["ratbagctl"] + w1 == ["ratbagctl", device, "led", led, "set", "color", color];
  }

  /** The shell hands `ratbagctl` exactly the device, LED and colour that went
      into the command, provided the device needs no escaping inside double
      quotes and the LED and colour are plain words. */
  lemma ColorCommandWords(device: string, led: string, color: string)
    requires QuotesSafely(device) && IsPlainWord(led) && IsPlainWord(color)
    ensures ShellWords(ColorCommand(device, led, color)) ==
      Some(["ratbagctl", device, "led", led, "set", "color", color])
  {
    CommandPiecesAgree(device, led, color);
    CommandPiecesWords(device, led, color);
  }

  // ---------------------------------------------------------------------
  // apply_color

  /** The three validation failures, checked in this order. */
  datatype ApplyError = NoDevice | NoLed | NoColor {
    /** The status line shown for the failure. */
    function Message(): string {
      match this
      case NoDevice => "Error: No device selected"
      case NoLed => "Error: No LED selected"
      case NoColor => "Error: No color specified"
    }
  }

  /** A successful validation: the configuration saved before the command
      runs, and the command handed to the shell. */
  datatype Applied = Applied(config: Config, command: string)

  /** `apply_color` with the device box, LED box and colour entry contents.
      The selection is remembered before the command runs, so it stays
      remembered whether or not the command then succeeds. */
  function ApplyColor(c: Config, device: string, led: string, color: string): (r: Result<Applied, ApplyError>)
    ensures r == Failure(NoDevice) <==> device == ""
    ensures r == Failure(NoLed) <==> device != "" && led == ""
    ensures r == Failure(NoColor) <==> device != "" && led != "" && color == ""
    ensures r.Success? ==> r.value.config.Keys == c.Keys + SelectionKeys
    ensures r.Success? ==>
      && r.value.config["last_device"] == Str(device)
      && r.value.config["last_led"] == Str(led)
      && r.value.config["last_color"] == Str(color)
    ensures r.Success? ==> forall k :: k in c && k !in SelectionKeys ==> r.value.config[k] == c[k]
    ensures r.Success? ==> r.value.command == ColorCommand(device, led, color)
  {
    if device == "" then Failure(NoDevice)
    else if led == "" then Failure(NoLed)
    else if color == "" then Failure(NoColor)
    else
      var c' := c["last_device" := Str(device)]["last_led" := Str(led)]["last_color" := Str(color)];
      Success(Applied(c', ColorCommand(device, led, color)))
  }

  /** A successful apply hands `ratbagctl` the selection it remembered, as
      long as the shell leaves the device, LED and colour alone. */
  lemma ApplyColorWords(c: Config, device: string, led: string, color: string)
    requires ApplyColor(c, device, led, color).Success?
    requires QuotesSafely(device) && IsPlainWord(led) && IsPlainWord(color)
    ensures var a := ApplyColor(c, device, led, color).value;
      ShellWords(a.command) == Some(["ratbagctl", device, "led", led, "set", "color", color])
      && a.config["last_device"] == Str(device)
      && a.config["last_led"] == Str(led)
      && a.config["last_color"] == Str(color)
  {
    ColorCommandWords(device, led, color);
  }

  /** After a successful apply and a restart (the saved file reloaded, even on
      a machine with other tools installed), refreshing reselects the applied
      device while it is still listed, and the applied LED while that device
      still reports it. */
  lemma ApplyThenRefreshReselects(
    c: Config, device: string, led: string, color: string,
    available: set<string>, lines: seq<string>, ledQuery: string -> Discovery.Run)
    requires ApplyColor(c, device, led, color).Success?
    requires device in Discovery.ParseDevices(lines)
    ensures var c' := LoadConfig(available, Object(ApplyColor(c, device, led, color).value.config));
      var r := Discovery.RefreshDevices(Discovery.Completed(lines), ledQuery, c');
      && r.DevicesFound?
      && r.selected == device
      && (r.leds.LedsFound? && led in r.leds.leds ==> r.leds.selected == led)
  {
    var saved := ApplyColor(c, device, led, color).value.config;
    var c' := LoadConfig(available, Object(saved));
    assert c'["last_device"] == Str(device);
    assert c'["last_led"] == Str(led);
  }
}
