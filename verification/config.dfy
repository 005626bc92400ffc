/** The preference record of `change_color.py`: compiled-in defaults derived
    from the package managers found on the machine, the merge of the saved
    JSON object over those defaults, and the two settings-tab actions. */
module Config {
  import opened PyText

  /** A JSON value held in the preference file. The program stores strings and
      booleans; any other JSON value a user writes into the file is carried
      along untouched as its source text. */
  datatype Value = Str(s: string) | Bool(b: bool) | Other(json: string)

  /** The in-memory configuration dictionary. */
  type Config = map<string, Value>

  /** Keys written by the settings tab. */
  const SettingKeys: set<string> :=
    {"package_manager", "install_command", "package_name", "has_systemd", "skip_dependency_check"}

  /** Keys written by "Apply Color". */
  const SelectionKeys: set<string> := {"last_device", "last_led", "last_color"}

  /** The package managers probed, highest priority first. */
  const Managers: seq<string> := ["apt", "pacman", "dnf", "zypper", "flatpak"]

  /** What `detect_package_manager` reports when none of `Managers` is found. */
  const Unknown := "unknown"

  /** `detect_package_manager`: `available` is the set of executable names
      `shutil.which` finds. The first of `Managers` present wins. */
  function DetectPackageManager(available: set<string>): (pm: string)
    ensures pm == Unknown <==> forall i :: 0 <= i < |Managers| ==> Managers[i] !in available
    ensures pm != Unknown ==>
      exists i :: 0 <= i < |Managers| && Managers[i] == pm && pm in available &&
        forall j :: 0 <= j < i ==> Managers[j] !in available
  {
    assert Managers[0] == "apt" && Managers[1] == "pacman" && Managers[2] == "dnf";
    assert Managers[3] == "zypper" && Managers[4] == "flatpak";
    if "apt" in available then "apt"
    else if "pacman" in available then "pacman"
    else if "dnf" in available then "dnf"
    else if "zypper" in available then "zypper"
    else if "flatpak" in available then "flatpak"
    else Unknown
  }

  /** `get_default_install_command` for the manager `pm`: every known manager's
      command invokes that manager; anything else gets the manual-install notice. */
  function InstallCommandFor(pm: string): (cmd: string)
    ensures pm in Managers && pm != "flatpak" ==> "sudo " + pm + " " <= cmd
    ensures pm == "flatpak" ==> "flatpak " <= cmd
    ensures pm !in Managers ==> "echo " <= cmd
  {
    assert Managers[0] == "apt" && Managers[1] == "pacman" && Managers[2] == "dnf";
    assert Managers[3] == "zypper" && Managers[4] == "flatpak";
    if pm == "apt" then "sudo apt install -y"
    else if pm == "pacman" then "sudo pacman -S --noconfirm"
    else if pm == "dnf" then "sudo dnf install -y"
    else if pm == "zypper" then "sudo zypper install -y"
    else if pm == "flatpak" then "flatpak install -y"
    else
      var notice := "'Package manager not detected. Please install manually:'";
      assert ("echo " + notice)[..5] == "echo ";
      "echo " + notice
  }

  /** `get_default_package_name`: the libratbag package each manager ships. */
  function PackageNameFor(pm: string): (name: string)
    ensures pm == "dnf" || pm == "zypper" <==> name == "libratbag"
    ensures pm == "flatpak" <==> name == "org.libratbag.ratbagd"
    ensures pm != "dnf" && pm != "zypper" && pm != "flatpak" <==> name == "ratbagd"
  {
    if pm == "apt" then "ratbagd"
    else if pm == "pacman" then "ratbagd"
    else if pm == "dnf" then "libratbag"
    else if pm == "zypper" then "libratbag"
    else if pm == "flatpak" then "org.libratbag.ratbagd"
    else "ratbagd"
  }

  /** The `default_config` dictionary built at the start of `load_config`. */
  function DefaultConfig(available: set<string>): (c: Config)
    ensures c.Keys == SettingKeys + SelectionKeys
    ensures c["package_manager"] == Str(DetectPackageManager(available))
    ensures c["install_command"] == Str(InstallCommandFor(DetectPackageManager(available)))
    ensures c["package_name"] == Str(PackageNameFor(DetectPackageManager(available)))
    ensures c["has_systemd"] == Bool("systemctl" in available)
    ensures c["skip_dependency_check"] == Bool(false)
    ensures c["last_device"] == Str("") && c["last_led"] == Str("0") && c["last_color"] == Str("")
  {
    var pm := DetectPackageManager(available);
    map[
      "package_manager" := Str(pm),
      "install_command" := Str(InstallCommandFor(pm)),
      "package_name" := Str(PackageNameFor(pm)),
      "has_systemd" := Bool("systemctl" in available),
      "skip_dependency_check" := Bool(false),
      "last_device" := Str(""),
      "last_led" := Str("0"),
      "last_color" := Str("")
    ]
  }

  /** What reading the preference file gives: no file, a file that cannot be
      read or is not a JSON object, or the decoded object. */
  datatype Stored = Absent | Unreadable | Object(entries: map<string, Value>)

  /** `load_config`: every saved key overrides the default of the same name;
      saved keys unknown to the defaults are kept too; a missing or unreadable
      file leaves the defaults as they are. */
  function LoadConfig(available: set<string>, stored: Stored): (c: Config)
    ensures stored.Object? ==> c.Keys == DefaultConfig(available).Keys + stored.entries.Keys
    ensures stored.Object? ==> forall k :: k in stored.entries ==> c[k] == stored.entries[k]
    ensures stored.Object? ==>
      forall k :: k in DefaultConfig(available) && k !in stored.entries ==> c[k] == DefaultConfig(available)[k]
    ensures !stored.Object? ==> c == DefaultConfig(available)
  {
    var defaults := DefaultConfig(available);
    match stored
    case Object(saved) => defaults + saved
    case _ => defaults
  }

  /** `dict.get(key, default)`. */
  function Get(c: Config, key: string, default: Value): Value
  {
    if key in c then c[key] else default
  }

  /** The values shown on the settings tab. */
  datatype SettingsForm = SettingsForm(
    packageManager: string,
    installCommand: string,
    packageName: string,
    hasSystemd: bool,
    skipDependencyCheck: bool)

  /** `save_settings`: the five settings keys take the form's values and every
      other key, the remembered selection included, is left alone. */
  function SaveSettings(c: Config, form: SettingsForm): (c': Config)
    ensures c'.Keys == c.Keys + SettingKeys
    ensures c'["package_manager"] == Str(form.packageManager)
    ensures c'["install_command"] == Str(form.installCommand)
    ensures c'["package_name"] == Str(form.packageName)
    ensures c'["has_systemd"] == Bool(form.hasSystemd)
    ensures c'["skip_dependency_check"] == Bool(form.skipDependencyCheck)
    ensures forall k :: k in c && k !in SettingKeys ==> c'[k] == c[k]
  {
    c["package_manager" := Str(form.packageManager)]
     ["install_command" := Str(form.installCommand)]
     ["package_name" := Str(form.packageName)]
     ["has_systemd" := Bool(form.hasSystemd)]
     ["skip_dependency_check" := Bool(form.skipDependencyCheck)]
  }

  /** `reset_settings`: the form is refilled with freshly detected defaults;
      the configuration itself is not touched until the form is saved. */
  function ResetSettings(available: set<string>): (form: SettingsForm)
    ensures form.packageManager in Managers || form.packageManager == Unknown
    ensures !form.skipDependencyCheck
    ensures form.hasSystemd <==> "systemctl" in available
  {
    var pm := DetectPackageManager(available);
    SettingsForm(pm, InstallCommandFor(pm), PackageNameFor(pm), "systemctl" in available, false)
  }

  /** Resetting and then saving restores the compiled-in defaults of the five
      settings while the remembered device, LED and colour survive. */
  lemma ResetThenSave(c: Config, available: set<string>)
    ensures var c' := SaveSettings(c, ResetSettings(available));
      && (forall k :: k in SettingKeys ==> c'[k] == DefaultConfig(available)[k])
      && (forall k :: k in SelectionKeys && k in c ==> c'[k] == c[k])
  {
    var c' := SaveSettings(c, ResetSettings(available));
    var d := DefaultConfig(available);
    forall k | k in SettingKeys
      ensures c'[k] == d[k]
    {
      assert k == "package_manager" || k == "install_command" || k == "package_name"
        || k == "has_systemd" || k == "skip_dependency_check";
    }
  }

  /** Saving the loaded configuration and loading it again, even on a machine
      with different tools installed, gives back the same configuration:
      every default key is already present in what was saved. */
  lemma LoadSavedIsIdentity(available: set<string>, available': set<string>, stored: Stored)
    ensures LoadConfig(available', Object(LoadConfig(available, stored))) == LoadConfig(available, stored)
  {
    var c := LoadConfig(available, stored);
    var d' := DefaultConfig(available');
    assert d'.Keys == DefaultConfig(available).Keys;
    OverriddenDefaults(d', c);
  }

  /** Defaults whose every key is saved are overridden entirely. */
  lemma OverriddenDefaults(defaults: Config, saved: Config)
    requires defaults.Keys <= saved.Keys
    ensures defaults + saved == saved
  {
  }
}
