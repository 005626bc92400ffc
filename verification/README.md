# G915 LED colour changer — a Dafny model of its discovery and apply core

The repository holds two Tk utilities that drive `ratbagctl` to set the
colour of a Logitech G915 keyboard's LEDs:

- `change_color.py` is the cross-distribution version. It has a settings tab and a saved preference file.
- `change_color_arch-test.py` is a smaller Arch Linux version.

Under the widgets and subprocess calls is a small sequential core. This
project models that core as pure functions and proves its contracts:

- parsing the output of `ratbagctl list` into device names, and choosing the default device;
- parsing the output of `ratbagctl <device> led get` into LED ids, and choosing the default LED;
- validating an "Apply Color" request, remembering the selection, and building the shell command;
- the preference record: package-manager detection, the default tables, merging the saved file over the defaults, and the two settings-tab actions;
- the Arch variant's start-up pipeline and how it differs from the main utility.

Modules:

- `Wrappers` (`wrappers.dfy`): `Option` and `Result`.
- `PyText` (`pytext.dfy`): Python's `str.split()`, `" ".join(...)` and `sub in s`. `IsSpace` uses Python 3's exact whitespace code points.
- `Config` (`config.dfy`): configuration values, defaults, `load_config`, `save_settings` and `reset_settings`.
- `Discovery` (`discovery.dfy`): `refresh_devices` and `refresh_leds`.
- `Apply` (`apply.dfy`): `apply_color`, and a small model of how `sh -c` splits the command into words.
- `ArchVariant` (`arch.dfy`): `get_device_name`, `get_leds` and `main` of the Arch utility.
- `Scenarios` (`scenarios.dfy`): the documented examples, and inputs on which the two utilities behave differently.

The outside world enters the model as parameters:

- A `ratbagctl` run is a `Run`. It is either `Completed(lines)`, or it raised:
  - `ToolMissing` is `FileNotFoundError`;
  - `ExitedNonZero` is `CalledProcessError`.
- The `led get` query is a function from device name to `Run`.
- `shutil.which` is a set of available executable names.
- The saved JSON file is a `Stored`. It is `Absent`, `Unreadable` (bad JSON, not an object, or an I/O error), or an `Object` map.
- Configuration values are `Str`, `Bool` or `Other`. `Other` stands for any other JSON value a user may have written into the file.

Notes on what the code does:

- The LED id is the second token with its last character dropped, whatever that character is. It is not "the id up to a colon".
- The colour is only checked for being non-empty. It is not checked against a six-hex-digit pattern.
- An empty device list stops the refresh, so the selection functions are only ever called on a non-empty list.

## Model

| member | source | states |
|---|---|---|
| PyText.Split | change_color.py:288-289 | `split()` returns only non-empty, whitespace-free tokens, and never more tokens than there are characters |
| PyText.SplitOfToken | change_color.py:288-289 | a string without whitespace splits into itself alone |
| PyText.SplitAtSpace | change_color.py:288-289 | any whitespace character, tab or repeated or trailing space included, separates: the text before it and the text after it split independently; with `Split("") == []` and `SplitOfToken` this fixes `split()` on every string |
| PyText.JoinSingleSpaced | change_color.py:289 | `" ".join` of tokens leaves every whitespace character a plain space between two non-spaces |
| PyText.JoinSplit | change_color.py:289 | a single-spaced string is `" ".join` of its own `split()` |
| PyText.SingleSpacedUnique | change_color.py:289 | two single-spaced strings with the same tokens are equal |
| PyText.SplitJoin | change_color.py:289 | splitting tokens that were joined with single spaces gives back exactly those tokens |
| Config.DetectPackageManager | change_color.py:71-83 | the first of apt, pacman, dnf, zypper, flatpak that is available wins; `"unknown"` exactly when none of them is available |
| Config.InstallCommandFor | change_color.py:85-98 | each known manager's install command runs that manager (under `sudo` except flatpak); any other name gets the `echo` manual-install notice |
| Config.PackageNameFor | change_color.py:100-113 | dnf and zypper install `libratbag`, flatpak installs `org.libratbag.ratbagd`, everything else installs `ratbagd` |
| Config.DefaultConfig | change_color.py:41-50 | the defaults have exactly the eight keys: detected manager and its tables, `has_systemd` iff systemctl is present, `skip_dependency_check` false, `last_led` "0", empty device and colour |
| Config.LoadConfig | change_color.py:40-62 | the result's keys are the union of default and saved keys; every saved key keeps its saved value, even one unknown to the defaults; every other key keeps its default; a missing or unreadable file gives exactly the defaults |
| Config.SaveSettings | change_color.py:232-238 | the five settings keys take the form's values and every other key, including the remembered selection, is unchanged |
| Config.ResetSettings | change_color.py:241-246 | the form is refilled with a known manager or "unknown", skip-check off, and the systemd box set iff systemctl exists |
| Config.ResetThenSave | change_color.py:232-246 | resetting then saving restores the default of every settings key and keeps the remembered device, LED and colour |
| Config.LoadSavedIsIdentity | change_color.py:52-69 | saving the loaded configuration and loading it again gives the same configuration, even with different tools installed |
| Discovery.DisplayName | change_color.py:289 | the name re-splits into exactly the tokens after the first and is single-spaced whatever spacing the line had; it is empty exactly when the line has at most one token |
| Discovery.DisplayNameUnique | change_color.py:289 | no other single-spaced string has those tokens, so the name compared with `last_device` and put in the command is fixed character by character |
| Discovery.ParseDevices | change_color.py:286-290 | no more devices than lines, no empty device name, and a name is listed iff some line has a colon and at least two tokens and yields that name |
| Discovery.ParseDevicesAppend | change_color.py:286-290 | parsing is line by line and keeps order: the devices of `a + b` are the devices of `a` followed by those of `b` |
| Discovery.ParseDevicesIgnoresNoise | change_color.py:286-290 | lines without a colon or with fewer than two tokens contribute nothing wherever they appear |
| Discovery.FirstContaining | change_color.py:303-307 | returns the position of the first item containing the text, and none exactly when no item contains it |
| Discovery.SelectDevice | change_color.py:298-311 | the choice is always a listed device: the remembered device if it is non-empty and listed, else the first device naming G915, else the first device |
| Discovery.LedId | change_color.py:332 | an id exists iff the line has a second token, and the id plus the dropped last character is that token |
| Discovery.ParseLeds | change_color.py:329-333 | a successful parse yields no more ids than lines |
| Discovery.ParseLedsMeaning | change_color.py:329-333 | parsing fails iff some `LED:` line lacks a second token; otherwise an id is listed iff some `LED:` line yields it |
| Discovery.ParseLedsAppend | change_color.py:329-333 | LED parsing is line by line and keeps order; it fails on a concatenation iff it fails on one of the parts |
| Discovery.SelectLed | change_color.py:341-346 | the choice is always a listed LED: the remembered LED if it is non-empty and listed, else the first |
| Discovery.RefreshLeds | change_color.py:319-351 | refresh is skipped iff no device is selected; it fails iff the query raised or an `LED:` line is malformed; it reports no LEDs iff none were parsed; otherwise it offers the parsed ids and selects by the LED policy: the remembered LED when listed, else the first |
| Discovery.RefreshDevices | change_color.py:281-317 | the list fails iff the tool raised; "no devices" iff nothing parsed; otherwise the parsed devices are offered, the selection follows the device policy (remembered, else first G915, else first), and the LED refresh for it is never skipped |
| Apply.ColorCommandWords | change_color_arch-test.py:72-75 | the shell passes `ratbagctl` exactly `device`, `led`, `<led>`, `set`, `color`, `<color>` when the device needs no escaping in double quotes and the LED and colour are plain words |
| Apply.ApplyColor | change_color.py:357-382 | an empty device, else empty LED, else empty colour gives its own error; on success the keys grow by the three selection keys, those keys hold the inputs, every other key is unchanged, and the command is the `ratbagctl` command for the three inputs |
| Apply.ApplyColorWords | change_color.py:374-382 | a successful apply remembers the device, LED and colour that the shell then hands to `ratbagctl` as its arguments |
| Apply.ApplyThenRefreshReselects | change_color.py:374-378 | after an apply and a reload of the saved file, refreshing reselects the applied device while it is listed, and the applied LED while that device reports it |
| ArchVariant.DeviceNameIn | change_color_arch-test.py:46-57 | none exactly when no line mentions G915; otherwise the name from the first line that mentions it, with no colon required |
| ArchVariant.LedLines | change_color_arch-test.py:59-67 | exactly the raw lines starting with `LED:`, never more than the input |
| ArchVariant.LedLinesAppend | change_color_arch-test.py:63 | the filter keeps input order across a concatenation |
| ArchVariant.LedOptions | change_color_arch-test.py:117-118 | options exist iff every kept line has a second token, and then option k is the id of line k |
| ArchVariant.LedOptionsAgreeWithParseLeds | change_color_arch-test.py:117-118 | filtering `LED:` lines and then taking ids gives the same result as the main utility's single loop, failures included |
| ArchVariant.Start | change_color_arch-test.py:85-119 | a check returning False exits; a missing tool crashes; a failing list, no G915 line or an empty name exits; once the device is named, a failing LED query or no `LED:` line exits and a malformed `LED:` line crashes, since lines 117-118 are outside any `try`; when ready, the device is the non-empty name from the first G915 line, the LED options match the main utility's parse, and the default is the first option |
| ArchVariant.StartReady | change_color_arch-test.py:102-118 | with a named device and a completed LED query, start-up becomes ready iff there is an `LED:` line and every `LED:` line has an id |
| Scenarios.SelectDeviceExamples | change_color.py:299-311 | a G915 device beats an earlier device without the model in its name; a remembered device beats the G915 device |
| Scenarios.ParseLedsExample | change_color.py:329-333 | `LED: a: on` and `LED: b: on` give ids a and b, and other lines are ignored |
| Scenarios.MalformedLedExample | change_color.py:329-351 | a bare `LED:` line makes the LED refresh fail even after a good line |
| Scenarios.EmptyDeviceRefused | change_color.py:362-364 | an empty device is refused before the LED and colour are looked at |
| Scenarios.DocumentedCommand | change_color.py:375-381 | `Dev`, `0`, `2bdee6` is accepted and gives `ratbagctl "Dev" led 0 set color 2bdee6` |
| Scenarios.LoadConfigExample | change_color.py:52-58 | a file holding only `last_device` leaves every other key at its default |
| Scenarios.ColonDivergence | change_color_arch-test.py:50-52 | a line without a colon gives no device in the main utility, but the Arch variant takes it |
| Scenarios.RememberedDivergence | change_color_arch-test.py:50-52 | with two G915 lines, the main utility keeps the remembered second device while the Arch variant takes the first |
| Scenarios.MalformedLedDivergence | change_color_arch-test.py:117-118 | a bare `LED:` line from the keyboard is reported by the main utility (caught at change_color.py:350) but crashes the Arch variant |
| Scenarios.BareModelLineExits | change_color_arch-test.py:103-106 | a `G915` line with a single token yields the empty name and the Arch variant exits |

## Left out

- Tk widgets, message boxes, the status label texts (including the LED count and exception text), window set-up and the event loops: these are user interface. The three validation messages are kept as `ApplyError.Message`.
- Running processes (`subprocess.run`, `Popen`, `shell=True`) and their exit codes: the output and the raised exception are inputs (`Run`). The command's own success only changes the status label. The selection is saved before the command runs, so it stays saved either way.
- Splitting stdout into lines (`splitlines`): the model starts from the list of lines.
- JSON reading and writing and `os.path.exists`: the saved file is an already decoded `Stored` value. `save_config` writes the whole configuration, which `Config.LoadSavedIsIdentity` reads back.
- `shutil.which`, `os.stat` and `chmod`: the first is a set of names; `check_script_permissions` is the boolean `permsOk` of `ArchVariant.Start`.
- `check_dependencies` in both files (version probe, install command, systemctl start/enable): this is external-process orchestration. It is the boolean `depsOk` in the Arch start-up and is not modelled in the main utility. In the Arch file only `FileNotFoundError` is caught (change_color_arch-test.py:11), so a `ratbagctl --version` that exits non-zero crashes start-up; `depsOk` stands only for the function's returned value, and that crash is not modelled.
- The predefined colour tables and `select_predefined_color` / `insert_color_code`: constant data looked up by key.
- Filling the settings tab and main tab from the configuration (`tk.StringVar(value=...)`): Tcl's conversion of non-string values is not modelled.
- The profile-scoped command shape: these two files only build the unscoped command.
- Apply.ColorCommandWords: the shell model reads only blanks, double quotes and plain characters, and returns None for anything else. The round trip is therefore proved only for a device without `"`, `$`, backquote or backslash, and for an LED and colour made of letters, digits and `-_.,:+@%/`. Other device names may be altered by the shell, as the source's `shell=True` allows.
- Apply.ApplyColorWords: the read-back carries the same shell-safety condition as `Apply.ColorCommandWords`.
- Discovery.ParseLeds: its own contract only bounds the length. What the ids are, and when parsing fails, is stated by `Discovery.ParseLedsMeaning`.
