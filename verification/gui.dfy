/**
 * `setup_gui.py`: the user and keyboard-layout detection, the desktop
 * choice, and the plan of steps it runs after the base install. Its `run`
 * prints nothing, so plans execute with the `Silent` trace style.
 */
module Gui {
  import opened Wrappers
  import opened Text
  import opened Commands
  import opened Ordering
  import opened Executor
  import opened Files

  /**
   * The user the desktop is set up for: the login name, unless that is
   * `root`, in which case `SUDO_USER` from the environment, or "user".
   */
  function DetectUser(login: string, sudoUser: Option<string>): (u: string)
    ensures login != "root" ==> u == login
    ensures login == "root" && sudoUser.Some? ==> u == sudoUser.value
    ensures login == "root" && sudoUser.None? ==> u == "user"
    ensures u == "root" ==> sudoUser == Some("root")
  {
    if login != "root" then login else sudoUser.GetOr("user")
  }

  /** The error `line.split('=')[1]` raises on a line without `=`. */
  const KeymapIndexError: string := "IndexError: list index out of range"

  /** The layout used when no line of `/etc/vconsole.conf` mentions `KEYMAP`. */
  const DefaultLayout: string := "us"

  /** A line the layout loop reads a value from. */
  predicate MentionsKeymap(line: string) {
    Contains(line, "KEYMAP")
  }

  /** What `line.split('=')[1].strip()` gives, for a line that has an `=`. */
  function KeymapValue(line: string): string {
    var parts := Split(line, '=');
    if |parts| >= 2 then Strip(parts[1]) else ""
  }

  /**
   * The layout loop of `setup_gui.py` over the lines read so far: every line
   * that mentions `KEYMAP` overwrites the layout, and one without `=` raises.
   */
  function LayoutFrom(lines: seq<string>): Result<string, string>
  {
    if |lines| == 0 then Ok(DefaultLayout)
    else
      var line := lines[|lines| - 1];
      match LayoutFrom(lines[..|lines| - 1])
      case Err(e) => Err(e)
      case Ok(layout) =>
        if !MentionsKeymap(line) then Ok(layout)
        else if '=' !in line then Err(KeymapIndexError)
        else Ok(KeymapValue(line))
  }

  /** The layout detection; `conf` is `/etc/vconsole.conf` split into lines, `None` when absent. */
  function DetectLayout(conf: Option<seq<string>>): Result<string, string> {
    match conf
    case None => Ok(DefaultLayout)
    case Some(lines) => LayoutFrom(lines)
  }

  /** Line `k` is the last line that mentions `KEYMAP`. */
  ghost predicate LastKeymapLine(lines: seq<string>, k: int) {
    && 0 <= k < |lines|
    && MentionsKeymap(lines[k])
    && forall j :: k < j < |lines| ==> !MentionsKeymap(lines[j])
  }

  /** The layout loop fails exactly when some line mentions `KEYMAP` but has no `=`. */
  lemma {:induction false} LayoutFailsIff(lines: seq<string>)
    ensures LayoutFrom(lines).Err? <==> exists i :: 0 <= i < |lines| && MentionsKeymap(lines[i]) && '=' !in lines[i]
    ensures LayoutFrom(lines).Err? ==> LayoutFrom(lines).error == KeymapIndexError
  {
    if |lines| > 0 {
      var n := |lines| - 1;
      LayoutFailsIff(lines[..n]);
      assert forall i :: 0 <= i < n ==> lines[..n][i] == lines[i];
    }
  }

  /** Without any `KEYMAP` line the layout stays "us". */
  lemma {:induction false} LayoutDefault(lines: seq<string>)
    requires forall i :: 0 <= i < |lines| ==> !MentionsKeymap(lines[i])
    ensures LayoutFrom(lines) == Ok(DefaultLayout)
  {
    if |lines| > 0 {
      var n := |lines| - 1;
      assert !MentionsKeymap(lines[n]);
      assert forall i :: 0 <= i < n ==> lines[..n][i] == lines[i];
      LayoutDefault(lines[..n]);
    }
  }

  /** When the loop succeeds, the last line that mentions `KEYMAP` decides the layout. */
  lemma {:induction false} LastKeymapLineWins(lines: seq<string>, k: int)
    requires LastKeymapLine(lines, k) && LayoutFrom(lines).Ok?
    ensures LayoutFrom(lines).value == KeymapValue(lines[k])
  {
    var n := |lines| - 1;
    if k < n {
      assert !MentionsKeymap(lines[n]);
      assert LastKeymapLine(lines[..n], k) by {
        assert forall j :: k < j < n ==> lines[..n][j] == lines[j];
        assert lines[..n][k] == lines[k];
      }
      LastKeymapLineWins(lines[..n], k);
      assert lines[..n][k] == lines[k];
    }
  }

  /** For the file as a whole: the detection fails exactly when a line of it makes the loop raise. */
  lemma DetectLayoutFailsIff(conf: Option<seq<string>>)
    ensures DetectLayout(conf).Err? <==>
              conf.Some? && exists i :: 0 <= i < |conf.value| && MentionsKeymap(conf.value[i]) && '=' !in conf.value[i]
    ensures DetectLayout(conf).Err? ==> DetectLayout(conf).error == KeymapIndexError
  {
    if conf.Some? {
      LayoutFailsIff(conf.value);
    }
  }

  /** The three settings `DetectLayout` is specified by, for the file as a whole. */
  lemma DetectLayoutDefaults(conf: Option<seq<string>>)
    ensures conf.None? ==> DetectLayout(conf) == Ok(DefaultLayout)
    ensures conf.Some? && (forall i :: 0 <= i < |conf.value| ==> !MentionsKeymap(conf.value[i])) ==>
              DetectLayout(conf) == Ok(DefaultLayout)
  {
    if conf.Some? && forall i :: 0 <= i < |conf.value| ==> !MentionsKeymap(conf.value[i]) {
      LayoutDefault(conf.value);
    }
  }

  /** The package lists `setup_gui.py` always installs, package by package. */
  const UtilsList: seq<string> := [
    "xf86-input-libinput", "brightnessctl", "bluez", "bluez-utils", "power-profiles-daemon", "upower", "xdg-user-dirs"
  ]
  const AppsList: seq<string> := [
    "firefox", "discord", "visual-studio-code-bin", "vlc", "pipewire-pulse", "gvfs-ntfs", "ntfs-3g", "ttf-cascadia-code"
  ]

  /** The strings `utils` and `apps` of the script: the lists joined with single spaces. */
  const Utils: string := Join(UtilsList, " ")
  const Apps: string := Join(AppsList, " ")

  /** `Utils` names exactly the packages of `UtilsList`. */
  lemma UtilsWords()
    ensures Split(Utils, ' ') == UtilsList
  {
    UtilsSpaceFree();
    SplitUnique(Utils, ' ', UtilsList);
  }

  lemma UtilsSpaceFree()
    ensures forall k :: 0 <= k < |UtilsList| ==> ' ' !in UtilsList[k]
  {
  }

  /** `Apps` names exactly the packages of `AppsList`. */
  lemma AppsWords()
    ensures Split(Apps, ' ') == AppsList
  {
    AppsSpaceFree();
    SplitUnique(Apps, ' ', AppsList);
  }

  lemma AppsSpaceFree()
    ensures forall k :: 0 <= k < |AppsList| ==> ' ' !in AppsList[k]
  {
  }

  /** The `envs` table: the desktop packages for each menu key. */
  const Envs: map<string, string> := map[
    "1" := "gnome gnome-extra gdm",
    "2" := "plasma kde-applications sddm",
    "3" := "hyprland uwsm sddm waybar kitty rofi-wayland xdg-desktop-portal-hyprland"
  ]

  /** `envs.get(choice)` as the f-string prints it: a missing key prints as "None". */
  function EnvText(choice: string): string {
    if choice in Envs then Envs[choice] else "None"
  }

  const YayBuild: string := "git clone https://aur.archlinux.org/yay.git /tmp/yay && cd /tmp/yay && makepkg -si --noconfirm"

  const YayWords: seq<string> := ["yay", "-S", "--noconfirm"]
  const YayPrefix: string := Join(YayWords, " ")

  function YayInstall(choice: string): string {
    YayPrefix + " " + EnvText(choice) + " " + Utils + " " + Apps
  }

  /** The command word and flags of the install command. */
  lemma YayPrefixWords()
    ensures Split(YayPrefix, ' ') == YayWords
  {
    SplitUnique(YayPrefix, ' ', YayWords);
  }

  /** An unknown choice contributes the single word "None". */
  lemma NoneWord()
    ensures Split("None", ' ') == ["None"]
  {
    SplitUnique("None", ' ', ["None"]);
  }

  /**
   * The `yay -S` command names the desktop packages of the chosen `envs`
   * entry (or the word "None" for any other choice) followed by every utility
   * and every application, whatever the choice.
   */
  lemma YayPackages(choice: string)
    ensures Split(YayInstall(choice), ' ') == YayWords + Split(EnvText(choice), ' ') + UtilsList + AppsList
    ensures choice !in Envs ==> Split(EnvText(choice), ' ') == ["None"]
  {
    var e := EnvText(choice);
    UtilsWords();
    AppsWords();
    YayPrefixWords();
    NoneWord();
    SplitAppend(YayPrefix + [' '] + e + [' '] + Utils, Apps, ' ');
    SplitAppend(YayPrefix + [' '] + e, Utils, ' ');
    SplitAppend(YayPrefix, e, ' ');
  }

  function HomeDir(user: string): string {
    "/home/" + user
  }

  function ConfigHome(user: string): string {
    "/home/" + user + "/.config"
  }

  function DataHome(user: string): string {
    "/home/" + user + "/.local/share"
  }

  function DiscordDir(user: string): string {
    ConfigHome(user) + "/discord"
  }

  function VscodeDir(user: string): string {
    DataHome(user) + "/vscode/extensions"
  }

  function ZshDir(user: string): string {
    ConfigHome(user) + "/zsh"
  }

  /** The file `configure_xdg_apps` appends to: `zsh/.zshrc` under the user's `.config`. */
  function ZshrcPath(user: string): string {
    ZshDir(user) + "/" + ".zshrc"
  }

  /**
   * The zshrc zsh reads: `~/.zshrc`, as no installer sets `ZDOTDIR`. It is
   * the file `Install.py` writes for the user.
   */
  function HomeZshrc(user: string): string {
    HomeDir(user) + "/" + ".zshrc"
  }

  /** The text `configure_xdg_apps` appends to the user's zshrc. */
  const XdgExports: string :=
    "\n# XDG App Fixes\nexport VSCODE_PORTABLE=\"\\$XDG_DATA_HOME/vscode\"\nexport ELECTRON_CONFIG_CACHE=\"\\$XDG_CONFIG_HOME/electron\"\n"

  /** `configure_xdg_apps` as written: it appends to `~/.config/zsh/.zshrc`, whose directory nothing creates. */
  function XdgStepsAsWritten(user: string): seq<Action> {
    [MakeDirs(DiscordDir(user)), MakeDirs(VscodeDir(user)), AppendFile(ZshrcPath(user), XdgExports)]
  }

  /** `configure_xdg_apps` appending to the user's `~/.zshrc`, the file its comment names. */
  function XdgSteps(user: string): seq<Action> {
    [MakeDirs(DiscordDir(user)), MakeDirs(VscodeDir(user)), AppendFile(HomeZshrc(user), XdgExports)]
  }

  /** The filesystem after the two `makedirs` calls, when neither raises. */
  function AfterXdgDirs(fs: Fs, user: string): Fs {
    fs.(dirs := fs.dirs + Ancestors(DiscordDir(user)) + Ancestors(VscodeDir(user)))
  }

  /**
   * The two `makedirs` calls of `configure_xdg_apps` followed by any third
   * step: the first two raise exactly when a regular file is in their way,
   * and otherwise the third step runs on `AfterXdgDirs`.
   */
  lemma XdgDirsThen(user: string, last: Action, fs: Fs)
    ensures var r := Simulate([MakeDirs(DiscordDir(user)), MakeDirs(VscodeDir(user)), last], fs);
            && (!Unblocked(fs, DiscordDir(user)) ==> r == Err(0))
            && (Unblocked(fs, DiscordDir(user)) && !Unblocked(fs, VscodeDir(user)) ==> r == Err(1))
            && (Unblocked(fs, DiscordDir(user)) && Unblocked(fs, VscodeDir(user)) ==>
                  r == (match Apply(AfterXdgDirs(fs, user), last)
                        case Ok(f) => Ok(f)
                        case Err(_) => Err(2)))
  {
    var plan := [MakeDirs(DiscordDir(user)), MakeDirs(VscodeDir(user)), last];
    assert plan[1..][1..] == [last];
    assert [last][1..] == [];
    if Unblocked(fs, DiscordDir(user)) {
      var fs1 := Apply(fs, plan[0]).value;
      if Unblocked(fs1, VscodeDir(user)) {
        var fs2 := Apply(fs1, plan[1]).value;
        assert fs2 == AfterXdgDirs(fs, user);
        var tail := Simulate([last], fs2);
        if Apply(fs2, last).Ok? {
          assert Simulate([last][1..], Apply(fs2, last).value) == Ok(Apply(fs2, last).value);
          assert tail == Ok(Apply(fs2, last).value);
        } else {
          assert tail == Err(0);
        }
        assert Simulate(plan[1..], fs1) == (if tail.Err? then Err(tail.error + 1) else tail);
      }
    }
  }

  /**
   * As written, `configure_xdg_apps` raises whenever `~/.config/zsh` does
   * not exist yet, which none of the installers creates: neither `makedirs`
   * call creates it. Unless a `makedirs` call raises first, the exception is
   * the `FileNotFoundError` of the append, its third step.
   */
  lemma XdgAppendFailsAsWritten(user: string, fs: Fs)
    requires ZshDir(user) !in fs.dirs
    ensures Simulate(XdgStepsAsWritten(user), fs).Err?
    ensures Simulate(XdgStepsAsWritten(user), fs).error <= 2
    ensures Unblocked(fs, DiscordDir(user)) && Unblocked(fs, VscodeDir(user)) ==>
              Simulate(XdgStepsAsWritten(user), fs) == Err(2)
  {
    ZshDirNotUnderDiscord(user);
    ZshDirNotUnderVscode(user);
    ParentOfEntry(ZshDir(user), ".zshrc");
    XdgDirsThen(user, AppendFile(ZshrcPath(user), XdgExports), fs);
  }

  /** Creating the discord directory does not create `~/.config/zsh`. */
  lemma ZshDirNotUnderDiscord(user: string)
    ensures ZshDir(user) !in Ancestors(DiscordDir(user))
  {
    var z := ZshDir(user);
    var d1 := DiscordDir(user);
    var n := |"/home/" + user + "/.config/"|;
    assert z[n] == 'z' && d1[n] == 'd' && |d1| > |z|;
    forall i | 0 < i <= |d1| && (i == |d1| || d1[i] == '/') ensures d1[..i] != z {
      assert i != |z| || d1[..i][n] == d1[n];
    }
  }

  /** Creating the vscode extensions directory does not create `~/.config/zsh`. */
  lemma ZshDirNotUnderVscode(user: string)
    ensures ZshDir(user) !in Ancestors(VscodeDir(user))
  {
    var z := ZshDir(user);
    var d2 := VscodeDir(user);
    var m := |"/home/" + user + "/."|;
    assert z[m] == 'c' && d2[m] == 'l' && |d2| > |z|;
    forall i | 0 < i <= |d2| && (i == |d2| || d2[i] == '/') ensures d2[..i] != z {
      assert d2[|z|] != '/';
    }
  }

  /** `os.makedirs` on the discord directory creates the home directory on the way. */
  lemma HomeUnderDiscord(user: string)
    ensures HomeDir(user) in Ancestors(DiscordDir(user))
  {
    var d1 := DiscordDir(user);
    var k := |HomeDir(user)|;
    assert d1[k] == '/' && d1[..k] == HomeDir(user);
  }

  /** Neither `makedirs` call turns `~/.zshrc` into a directory. */
  lemma HomeZshrcNotCreated(user: string)
    ensures HomeZshrc(user) !in Ancestors(DiscordDir(user))
    ensures HomeZshrc(user) !in Ancestors(VscodeDir(user))
  {
    var z := HomeZshrc(user);
    var d1, d2 := DiscordDir(user), VscodeDir(user);
    var m := |"/home/" + user + "/."|;
    assert z[m] == 'z' && d1[m] == 'c' && d2[m] == 'l';
    assert |d1| > |z| && |d2| > |z|;
    forall i | 0 < i <= |d1| && (i == |d1| || d1[i] == '/') ensures d1[..i] != z {
      assert d1[|z|] != '/';
    }
    forall i | 0 < i <= |d2| && (i == |d2| || d2[i] == '/') ensures d2[..i] != z {
      assert i != |z| || d2[..i][m] == d2[m];
    }
  }

  /**
   * Appending to `~/.zshrc` instead, `configure_xdg_apps` succeeds exactly
   * when no regular file blocks its two `makedirs` calls and `~/.zshrc` is
   * not a directory: the home directory it needs is created on the way. The
   * zshrc then holds what it held before followed by the XDG exports: the
   * append never truncates it.
   */
  lemma XdgStepsAppend(user: string, fs: Fs)
    ensures Simulate(XdgSteps(user), fs).Ok? <==>
              Unblocked(fs, DiscordDir(user)) && Unblocked(fs, VscodeDir(user)) && HomeZshrc(user) !in fs.dirs
    ensures var r := Simulate(XdgSteps(user), fs);
            r.Ok? ==>
              && HomeZshrc(user) in r.value.files
              && r.value.files[HomeZshrc(user)] == Content(fs, HomeZshrc(user)) + XdgExports
  {
    HomeUnderDiscord(user);
    HomeZshrcNotCreated(user);
    ParentOfEntry(HomeDir(user), ".zshrc");
    XdgDirsThen(user, AppendFile(HomeZshrc(user), XdgExports), fs);
    var mid := AfterXdgDirs(fs, user);
    assert mid.files == fs.files;
    AppendKeepsContents(mid, HomeZshrc(user), XdgExports);
  }

  /** The body of `configure_uwsm_hyprland`'s settings text, for a layout. */
  function HyprSettings(layout: string): string {
    HyprSettingsHead + layout + HyprSettingsTail
  }

  const HyprSettingsHead: string := "\ninput {\n    kb_layout = "

  const HyprSettingsTail: string :=
    "\n    touchpad {\n        natural_scroll = yes\n        tap-to-click = yes\n    }\n}\n\n"
    + "# Ensure environment variables are imported to the session\n"
    + "exec-once = uwsm app -- waybar\nexec-once = uwsm app -- dunst\nexec-once = uwsm app -- nm-applet\n"

  /** The display managers the script can enable. */
  datatype DisplayManager = Gdm | Sddm

  function DmName(dm: DisplayManager): string {
    match dm
    case Gdm => "gdm"
    case Sddm => "sddm"
  }

  /** The commands `setup_gui.py` passes to its `run` helper. */
  datatype GuiCommand =
    | BuildYay
    | InstallDesktop(choice: string)
    | EnableBluetooth
    | GenerateHyprlandEntry
    | EnableDisplayManager(dm: DisplayManager)
    | UpdateUserDirs(user: string)
    | RemoveYayBuild

  /** The exact command text of each. */
  function CommandText(c: GuiCommand): string {
    match c
    case BuildYay => YayBuild
    case InstallDesktop(choice) => YayInstall(choice)
    case EnableBluetooth => "sudo systemctl enable bluetooth power-profiles-daemon"
    case GenerateHyprlandEntry => "uwsm internal generate-entry hyprland"
    case EnableDisplayManager(dm) => "sudo systemctl enable " + DmName(dm)
    case UpdateUserDirs(user) => "sudo -u " + user + " xdg-user-dirs-update"
    case RemoveYayBuild => "rm -rf /tmp/yay"
  }

  /** A step of the script: a `run` call, or a direct Python file operation. */
  datatype Step = Command(cmd: GuiCommand) | Python(action: Action)

  function ToAction(s: Step): Action {
    match s
    case Command(c) => Sh(CommandText(c))
    case Python(a) => a
  }

  /** The steps as the executor and the filesystem model see them. */
  function Actions(steps: seq<Step>): (r: seq<Action>)
    ensures |r| == |steps|
    ensures forall i :: 0 <= i < |steps| ==> r[i] == ToAction(steps[i])
  {
    seq(|steps|, i requires 0 <= i < |steps| => ToAction(steps[i]))
  }

  function Pythons(actions: seq<Action>): (r: seq<Step>)
    ensures |r| == |actions|
    ensures forall i :: 0 <= i < |actions| ==> r[i] == Python(actions[i])
  {
    seq(|actions|, i requires 0 <= i < |actions| => Python(actions[i]))
  }

  /** `configure_uwsm_hyprland`; `home` is what `~` expands to for the user running the script. */
  function HyprlandSteps(layout: string, home: string): seq<Step> {
    [ Command(GenerateHyprlandEntry),
      Python(MakeDirs(home + "/.config/hypr")),
      Python(AppendFile(home + "/.config/hypr/hyprland.conf", HyprSettings(layout))) ]
  }

  /** The display-manager branch of `__main__`. */
  function DisplayManagerSteps(choice: string, layout: string, home: string): seq<Step> {
    if choice == "3" then HyprlandSteps(layout, home) + [Command(EnableDisplayManager(Sddm))]
    else if choice == "1" then [Command(EnableDisplayManager(Gdm))]
    else [Command(EnableDisplayManager(Sddm))]
  }

  /** The three `run` calls that open `__main__`. */
  function InstallCommands(choice: string): seq<Step> {
    [Command(BuildYay), Command(InstallDesktop(choice)), Command(EnableBluetooth)]
  }

  /** The steps before the display-manager branch, with `xdg` for `configure_xdg_apps`. */
  function InstallSteps(choice: string, xdg: seq<Action>): seq<Step> {
    InstallCommands(choice) + Pythons(xdg)
  }

  /** The two clean-up commands that end the script. */
  function FinalSteps(user: string): seq<Step> {
    [Command(UpdateUserDirs(user)), Command(RemoveYayBuild)]
  }

  /** Everything the script does once the user and the layout are known, with `xdg` for `configure_xdg_apps`. */
  function PlanWith(choice: string, user: string, xdg: seq<Action>, layout: string, home: string): seq<Step> {
    InstallSteps(choice, xdg) + DisplayManagerSteps(choice, layout, home) + FinalSteps(user)
  }

  /** Everything `setup_gui.py` does once the user and the layout are known, as written. */
  function GuiPlan(choice: string, user: string, layout: string, home: string): seq<Step> {
    PlanWith(choice, user, XdgStepsAsWritten(user), layout, home)
  }

  /** The same plan with the corrected `configure_xdg_apps`. */
  function CorrectedGuiPlan(choice: string, user: string, layout: string, home: string): seq<Step> {
    PlanWith(choice, user, XdgSteps(user), layout, home)
  }

  /**
   * The whole script as written. A `KEYMAP` line without `=` ends it with
   * the `IndexError` before the first command. Otherwise it runs the plan
   * for the detected user: it builds yay and installs the desktop first,
   * appends the XDG exports to that user's `~/.config/zsh/.zshrc`, enables
   * the display manager of the choice (for "3" after writing the detected
   * keymap into the Hyprland configuration under `home`), and ends with the
   * two clean-up steps.
   */
  function GuiSetup(choice: string, login: string, sudoUser: Option<string>, conf: Option<seq<string>>, home: string): (r: Result<seq<Step>, string>)
    ensures r.Err? <==> conf.Some? && exists i :: 0 <= i < |conf.value| && MentionsKeymap(conf.value[i]) && '=' !in conf.value[i]
    ensures r.Err? ==> r.error == KeymapIndexError
    ensures r.Ok? ==>
              var plan, user := r.value, DetectUser(login, sudoUser);
              && |plan| >= 8
              && Actions(plan)[0] == Sh(YayBuild) && Actions(plan)[1] == Sh(YayInstall(choice))
              && plan[5] == Python(AppendFile(ZshrcPath(user), XdgExports))
              && (forall s :: s in plan && IsDmEnable(s) ==> s.cmd.dm == (if choice == "1" then Gdm else Sddm))
              && (Command(EnableDisplayManager(Gdm)) in plan <==> choice == "1")
              && (Command(EnableDisplayManager(Sddm)) in plan <==> choice != "1")
              && (Command(GenerateHyprlandEntry) in plan <==> choice == "3")
              && (choice == "3" ==> Precedes(plan, IsHyprlandEntry, IsDmEnable))
              && (choice == "3" ==>
                    && |plan| == 12 && DetectLayout(conf).Ok?
                    && plan[6] == Command(GenerateHyprlandEntry)
                    && plan[7] == Python(MakeDirs(home + "/.config/hypr"))
                    && plan[8] == Python(AppendFile(home + "/.config/hypr/hyprland.conf", HyprSettings(DetectLayout(conf).value)))
                    && plan[9] == Command(EnableDisplayManager(Sddm)))
              && (choice != "3" ==> |plan| == 9 && plan[6] == Command(EnableDisplayManager(if choice == "1" then Gdm else Sddm)))
              && plan[|plan| - 2..] == FinalSteps(user)
              && Precedes(plan, IsDmEnable, (s: Step) => s == Command(UpdateUserDirs(user)))
              && Precedes(plan, IsDmEnable, (s: Step) => s == Command(RemoveYayBuild))
  {
    DetectLayoutFailsIff(conf);
    match DetectLayout(conf)
    case Err(e) => Err(e)
    case Ok(layout) =>
      var user := DetectUser(login, sudoUser);
      GuiPlanFacts(choice, user, layout, home);
      Ok(GuiPlan(choice, user, layout, home))
  }

  /** The facts `GuiSetup` promises about the plan, for a known user and layout. */
  lemma GuiPlanFacts(choice: string, user: string, layout: string, home: string)
    ensures var plan := GuiPlan(choice, user, layout, home);
            && |plan| >= 8
            && Actions(plan)[0] == Sh(YayBuild) && Actions(plan)[1] == Sh(YayInstall(choice))
            && plan[5] == Python(AppendFile(ZshrcPath(user), XdgExports))
            && (forall s :: s in plan && IsDmEnable(s) ==> s.cmd.dm == (if choice == "1" then Gdm else Sddm))
            && (Command(EnableDisplayManager(Gdm)) in plan <==> choice == "1")
            && (Command(EnableDisplayManager(Sddm)) in plan <==> choice != "1")
            && (Command(GenerateHyprlandEntry) in plan <==> choice == "3")
            && (choice == "3" ==> Precedes(plan, IsHyprlandEntry, IsDmEnable))
            && (choice == "3" ==>
                  && |plan| == 12
                  && plan[6] == Command(GenerateHyprlandEntry)
                  && plan[7] == Python(MakeDirs(home + "/.config/hypr"))
                  && plan[8] == Python(AppendFile(home + "/.config/hypr/hyprland.conf", HyprSettings(layout)))
                  && plan[9] == Command(EnableDisplayManager(Sddm)))
            && (choice != "3" ==> |plan| == 9 && plan[6] == Command(EnableDisplayManager(if choice == "1" then Gdm else Sddm)))
            && plan[|plan| - 2..] == FinalSteps(user)
            && Precedes(plan, IsDmEnable, (s: Step) => s == Command(UpdateUserDirs(user)))
            && Precedes(plan, IsDmEnable, (s: Step) => s == Command(RemoveYayBuild))
  {
    var xdg := XdgStepsAsWritten(user);
    GuiPlanStart(choice, user, xdg, layout, home);
    DisplayManagerChoice(choice, user, xdg, layout, home);
    FinalStepsAfterDm(choice, user, xdg, layout, home);
    AppendPosition(choice, user, layout, home);
    BranchPositions(choice, user, xdg, layout, home);
  }

  predicate IsDmEnable(s: Step) {
    s.Command? && s.cmd.EnableDisplayManager?
  }

  predicate IsHyprlandEntry(s: Step) {
    s == Command(GenerateHyprlandEntry)
  }

  /** A step that takes no part in the display-manager branch. */
  predicate Bystander(s: Step) {
    !IsDmEnable(s) && !IsHyprlandEntry(s)
  }

  /** The two clean-up steps that end the script. */
  predicate IsFinal(s: Step) {
    s.Command? && (s.cmd.UpdateUserDirs? || s.cmd.RemoveYayBuild?)
  }

  /** No step before the branch enables a display manager or sets up Hyprland. */
  lemma InstallStepsNoDm(choice: string, xdg: seq<Action>)
    ensures forall s :: s in InstallSteps(choice, xdg) ==> Bystander(s) && !IsFinal(s)
  {
    assert forall s :: s in Pythons(xdg) ==> s.Python?;
  }

  /** Around steps that neither enable a display manager nor set up Hyprland, the Hyprland branch sets up Hyprland first. */
  lemma HyprlandBeforeSddm(pre: seq<Step>, layout: string, home: string, post: seq<Step>)
    requires forall s :: s in pre ==> Bystander(s)
    requires forall s :: s in post ==> Bystander(s)
    ensures Precedes(pre + DisplayManagerSteps("3", layout, home) + post, IsHyprlandEntry, IsDmEnable)
  {
    var hypr := HyprlandSteps(layout, home);
    var x := pre + hypr;
    var y := [Command(EnableDisplayManager(Sddm))] + post;
    assert x[|pre|] == hypr[0] && IsHyprlandEntry(x[|pre|]);
    assert Occurs(x, IsHyprlandEntry);
    assert y[0] in y && IsDmEnable(y[0]);
    assert Never(x, IsDmEnable) by {
      assert forall s :: s in x ==> s in pre || s in hypr;
    }
    assert Never(y, IsHyprlandEntry) by {
      assert forall s :: s in y ==> s == y[0] || s in post;
    }
    PrecedesAppend(x, y, IsHyprlandEntry, IsDmEnable);
    assert x + y == pre + DisplayManagerSteps("3", layout, home) + post;
  }

  /** Between such steps, the branch decides alone which display manager is enabled. */
  lemma BranchDecidesDm(pre: seq<Step>, choice: string, layout: string, home: string, post: seq<Step>)
    requires forall s :: s in pre ==> Bystander(s)
    requires forall s :: s in post ==> Bystander(s)
    ensures var plan := pre + DisplayManagerSteps(choice, layout, home) + post;
            && (forall s :: s in plan && IsDmEnable(s) ==> s.cmd.dm == (if choice == "1" then Gdm else Sddm))
            && (Command(EnableDisplayManager(Gdm)) in plan <==> choice == "1")
            && (Command(EnableDisplayManager(Sddm)) in plan <==> choice != "1")
            && (Command(GenerateHyprlandEntry) in plan <==> choice == "3")
  {
    var dm := DisplayManagerSteps(choice, layout, home);
    var plan := pre + dm + post;
    assert forall s :: s in plan <==> s in pre || s in dm || s in post;
    if choice == "3" {
      var hypr := HyprlandSteps(layout, home);
      assert forall s :: s in dm <==> s in hypr || s == Command(EnableDisplayManager(Sddm));
      assert hypr[0] == Command(GenerateHyprlandEntry);
      assert forall s :: s in hypr ==> !IsDmEnable(s);
    }
  }

  /**
   * The display manager follows the menu choice: gdm for "1" and sddm for
   * every other choice, never both, and for "3" only after Hyprland has
   * been set up. This holds whatever `configure_xdg_apps` does.
   */
  lemma DisplayManagerChoice(choice: string, user: string, xdg: seq<Action>, layout: string, home: string)
    ensures var plan := PlanWith(choice, user, xdg, layout, home);
            && (forall s :: s in plan && IsDmEnable(s) ==> s.cmd.dm == (if choice == "1" then Gdm else Sddm))
            && (Command(EnableDisplayManager(Gdm)) in plan <==> choice == "1")
            && (Command(EnableDisplayManager(Sddm)) in plan <==> choice != "1")
            && (Command(GenerateHyprlandEntry) in plan <==> choice == "3")
            && (choice == "3" ==> Precedes(plan, IsHyprlandEntry, IsDmEnable))
  {
    var pre := InstallSteps(choice, xdg);
    var post := FinalSteps(user);
    InstallStepsNoDm(choice, xdg);
    BranchDecidesDm(pre, choice, layout, home, post);
    if choice == "3" {
      HyprlandBeforeSddm(pre, layout, home, post);
    }
  }

  /** After steps that enable a display manager, the two final steps come after it. */
  lemma DmThenFinalSteps(pre: seq<Step>, user: string)
    requires Occurs(pre, IsDmEnable)
    requires forall s :: s in pre ==> !IsFinal(s)
    ensures var plan := pre + [Command(UpdateUserDirs(user)), Command(RemoveYayBuild)];
            && Precedes(plan, IsDmEnable, (s: Step) => s == Command(UpdateUserDirs(user)))
            && Precedes(plan, IsDmEnable, (s: Step) => s == Command(RemoveYayBuild))
  {
    var post := [Command(UpdateUserDirs(user)), Command(RemoveYayBuild)];
    assert post[0] in post && post[1] in post;
    PrecedesAppend(pre, post, IsDmEnable, (s: Step) => s == Command(UpdateUserDirs(user)));
    PrecedesAppend(pre, post, IsDmEnable, (s: Step) => s == Command(RemoveYayBuild));
  }

  /** Every branch enables a display manager, and none of its steps is a final step. */
  lemma BranchEnablesDm(choice: string, layout: string, home: string)
    ensures Occurs(DisplayManagerSteps(choice, layout, home), IsDmEnable)
    ensures forall s :: s in DisplayManagerSteps(choice, layout, home) ==> !IsFinal(s)
  {
    var dm := DisplayManagerSteps(choice, layout, home);
    if choice == "3" {
      var hypr := HyprlandSteps(layout, home);
      assert dm == hypr + [Command(EnableDisplayManager(Sddm))];
      assert dm[3] in dm && IsDmEnable(dm[3]);
      assert forall s :: s in hypr ==> !IsFinal(s);
    } else {
      assert dm[0] in dm && IsDmEnable(dm[0]);
    }
  }

  /**
   * `xdg-user-dirs-update` and the removal of `/tmp/yay` are the last two
   * steps and come after the display manager is enabled, whichever one it is.
   */
  lemma FinalStepsAfterDm(choice: string, user: string, xdg: seq<Action>, layout: string, home: string)
    ensures var plan := PlanWith(choice, user, xdg, layout, home);
            && plan[|plan| - 2..] == FinalSteps(user)
            && Precedes(plan, IsDmEnable, (s: Step) => s == Command(UpdateUserDirs(user)))
            && Precedes(plan, IsDmEnable, (s: Step) => s == Command(RemoveYayBuild))
  {
    var install := InstallSteps(choice, xdg);
    var dm := DisplayManagerSteps(choice, layout, home);
    var pre := install + dm;
    InstallStepsNoDm(choice, xdg);
    BranchEnablesDm(choice, layout, home);
    assert Occurs(pre, IsDmEnable) by {
      var x :| x in dm && IsDmEnable(x);
      assert x in pre;
    }
    DmThenFinalSteps(pre, user);
  }

  /** The install step is the `yay -S` command. */
  lemma InstallDesktopAction(choice: string)
    ensures ToAction(Command(InstallDesktop(choice))) == Sh(YayInstall(choice))
  {
  }

  /** A failing second command ends a run with just the first two steps issued. */
  lemma SecondCommandFails(plan: seq<Action>, codes: seq<int>)
    requires |codes| == |plan| >= 2
    requires plan[0].Run? && plan[1].Run? && codes[0] == 0 && codes[1] != 0
    ensures Issued(Execute(plan, codes, Silent).events) == [plan[0], plan[1]]
  {
    assert FirstFailure(plan, codes, 1) by {
      assert AllSucceed(plan[..1], codes[..1]);
    }
    HaltsAtFirstFailure(plan, codes, Silent, 1);
    assert plan[..2] == [plan[0], plan[1]];
  }

  /** The script starts by building yay and then installing the packages. */
  lemma GuiPlanStart(choice: string, user: string, xdg: seq<Action>, layout: string, home: string)
    ensures var plan := Actions(PlanWith(choice, user, xdg, layout, home));
            |plan| >= 2 && plan[0] == Sh(YayBuild) && plan[1] == Sh(YayInstall(choice))
  {
    var steps := PlanWith(choice, user, xdg, layout, home);
    assert steps[0] == Command(BuildYay) && steps[1] == Command(InstallDesktop(choice)) by {
      var install := InstallSteps(choice, xdg);
      assert install[0] == Command(BuildYay) && install[1] == Command(InstallDesktop(choice));
    }
    var plan := Actions(steps);
    assert plan[0] == ToAction(steps[0]) && plan[1] == ToAction(steps[1]);
    InstallDesktopAction(choice);
  }

  /** A failed `yay -S` stops the script: only the yay build and the failed install were issued. */
  lemma FailedInstallStopsGui(choice: string, user: string, xdg: seq<Action>, layout: string, home: string, codes: seq<int>)
    requires |codes| == |PlanWith(choice, user, xdg, layout, home)|
    requires codes[0] == 0 && codes[1] != 0
    ensures var plan := Actions(PlanWith(choice, user, xdg, layout, home));
            Issued(Execute(plan, codes, Silent).events) == [Sh(YayBuild), Sh(YayInstall(choice))]
  {
    GuiPlanStart(choice, user, xdg, layout, home);
    SecondCommandFails(Actions(PlanWith(choice, user, xdg, layout, home)), codes);
  }

  /** The as-written plan has the three commands, then `configure_xdg_apps`, whose append is step 5. */
  lemma AppendPosition(choice: string, user: string, layout: string, home: string)
    ensures var plan := GuiPlan(choice, user, layout, home);
            && |plan| >= 8
            && plan[5] == Python(AppendFile(ZshrcPath(user), XdgExports))
            && forall i :: 0 <= i <= 5 ==> !IsDmEnable(plan[i]) && !IsFinal(plan[i])
  {
    var install := InstallSteps(choice, XdgStepsAsWritten(user));
    var plan := GuiPlan(choice, user, layout, home);
    BranchEnablesDm(choice, layout, home);
    InstallStepsNoDm(choice, XdgStepsAsWritten(user));
    assert |DisplayManagerSteps(choice, layout, home)| >= 1;
    assert forall i :: 0 <= i < 6 ==> plan[i] == install[i] && install[i] in install;
    assert install[5] == Pythons(XdgStepsAsWritten(user))[2];
  }

  /** The steps as the executor and the filesystem model see them, piece by piece. */
  lemma ActionsAppend(x: seq<Step>, y: seq<Step>)
    ensures Actions(x + y) == Actions(x) + Actions(y)
  {
  }

  /**
   * Seen by the filesystem model, a plan is three `run` commands, the
   * calls of `configure_xdg_apps`, and the branch with the clean-up steps.
   */
  lemma PlanWithActions(choice: string, user: string, xdg: seq<Action>, layout: string, home: string)
    ensures Actions(PlanWith(choice, user, xdg, layout, home))
              == Actions(InstallCommands(choice)) + xdg + Actions(DisplayManagerSteps(choice, layout, home) + FinalSteps(user))
  {
    var cmds := InstallCommands(choice);
    var rest := DisplayManagerSteps(choice, layout, home) + FinalSteps(user);
    assert PlanWith(choice, user, xdg, layout, home) == (cmds + Pythons(xdg)) + rest;
    ActionsAppend(cmds + Pythons(xdg), rest);
    ActionsAppend(cmds, Pythons(xdg));
    assert Actions(Pythons(xdg)) == xdg;
  }

  /**
   * The consequence of the finding for the whole script as written: when
   * `~/.config/zsh` does not exist, the script raises inside
   * `configure_xdg_apps`, at the append (step 5) unless a `makedirs` call
   * raised before it, and so never reaches the display manager nor the two
   * clean-up commands.
   */
  lemma XdgFailureStopsGui(choice: string, user: string, layout: string, home: string, fs: Fs)
    requires ZshDir(user) !in fs.dirs
    ensures var plan := GuiPlan(choice, user, layout, home);
            var r := Simulate(Actions(plan), fs);
            && r.Err? && 3 <= r.error <= 5
            && (Unblocked(fs, DiscordDir(user)) && Unblocked(fs, VscodeDir(user)) ==> r.error == 5)
            && forall i :: 0 <= i <= r.error ==> !IsDmEnable(plan[i]) && !IsFinal(plan[i])
  {
    var cmds := Actions(InstallCommands(choice));
    var xdg := XdgStepsAsWritten(user);
    var rest := Actions(DisplayManagerSteps(choice, layout, home) + FinalSteps(user));
    PlanWithActions(choice, user, xdg, layout, home);
    XdgAppendFailsAsWritten(user, fs);
    SimulateCommands(cmds, fs);
    SimulateAppend(cmds, xdg, fs);
    SimulateAppendErr(cmds + xdg, rest, fs);
    AppendPosition(choice, user, layout, home);
  }

  /**
   * Where the branch sits in a plan whose `configure_xdg_apps` has three
   * steps: for "3" the Hyprland entry, the `~/.config/hypr` directory and the
   * append of the keymap settings come at 6, 7 and 8, and sddm at 9;
   * otherwise the display manager of the choice is step 6.
   */
  lemma BranchPositions(choice: string, user: string, xdg: seq<Action>, layout: string, home: string)
    requires |xdg| == 3
    ensures var plan := PlanWith(choice, user, xdg, layout, home);
            && (choice == "3" ==>
                  && |plan| == 12
                  && plan[6] == Command(GenerateHyprlandEntry)
                  && plan[7] == Python(MakeDirs(home + "/.config/hypr"))
                  && plan[8] == Python(AppendFile(home + "/.config/hypr/hyprland.conf", HyprSettings(layout)))
                  && plan[9] == Command(EnableDisplayManager(Sddm)))
            && (choice != "3" ==> |plan| == 9 && plan[6] == Command(EnableDisplayManager(if choice == "1" then Gdm else Sddm)))
  {
    var plan := PlanWith(choice, user, xdg, layout, home);
    var dm := DisplayManagerSteps(choice, layout, home);
    assert |InstallSteps(choice, xdg)| == 6;
    assert forall i :: 0 <= i < |dm| ==> plan[6 + i] == dm[i];
  }

  /** For choices other than "3" the branch and the clean-up steps are `run` commands only, so nothing raises. */
  lemma CommandBranchRuns(choice: string, user: string, layout: string, home: string, fs: Fs)
    requires choice != "3"
    ensures Simulate(Actions(DisplayManagerSteps(choice, layout, home) + FinalSteps(user)), fs) == Ok(fs)
  {
    var rest := DisplayManagerSteps(choice, layout, home) + FinalSteps(user);
    assert forall i :: 0 <= i < |rest| ==> rest[i].Command?;
    SimulateCommands(Actions(rest), fs);
  }

  /** For "3" only the Hyprland `makedirs` and append, steps 1 and 2 of the branch, can raise. */
  lemma HyprlandBranchRaises(user: string, layout: string, home: string, fs: Fs)
    ensures var r := Simulate(Actions(DisplayManagerSteps("3", layout, home) + FinalSteps(user)), fs);
            r.Err? ==> 1 <= r.error <= 2
  {
    var rest := Actions(DisplayManagerSteps("3", layout, home) + FinalSteps(user));
    assert rest[0].Run? && rest[3].Run? && rest[4].Run? && rest[5].Run?;
  }

  /** The branch and the clean-up steps raise only at the Hyprland file operations. */
  lemma BranchRaisesOnlyInHyprland(choice: string, user: string, layout: string, home: string, fs: Fs)
    ensures var r := Simulate(Actions(DisplayManagerSteps(choice, layout, home) + FinalSteps(user)), fs);
            && (choice != "3" ==> r.Ok?)
            && (r.Err? ==> choice == "3" && 1 <= r.error <= 2)
  {
    if choice != "3" {
      CommandBranchRuns(choice, user, layout, home, fs);
    } else {
      HyprlandBranchRaises(user, layout, home, fs);
    }
  }

  /** The three commands and the corrected `configure_xdg_apps` leave the script running when nothing blocks them. */
  lemma CorrectedXdgPrefixRuns(choice: string, user: string, fs: Fs)
    requires Unblocked(fs, DiscordDir(user)) && Unblocked(fs, VscodeDir(user)) && HomeZshrc(user) !in fs.dirs
    ensures Simulate(Actions(InstallCommands(choice)) + XdgSteps(user), fs).Ok?
  {
    var cmds := Actions(InstallCommands(choice));
    XdgStepsAppend(user, fs);
    SimulateCommands(cmds, fs);
    SimulateAppend(cmds, XdgSteps(user), fs);
  }

  /**
   * The corrected script gets past `configure_xdg_apps` whenever neither
   * directory is blocked by a file and `~/.zshrc` is not a directory: for
   * choices other than "3" no file operation raises at all, and for "3"
   * only the Hyprland `makedirs` or append (steps 7 and 8) can, after the
   * XDG steps.
   */
  lemma CorrectedGuiPlanContinues(choice: string, user: string, layout: string, home: string, fs: Fs)
    requires Unblocked(fs, DiscordDir(user)) && Unblocked(fs, VscodeDir(user)) && HomeZshrc(user) !in fs.dirs
    ensures var r := Simulate(Actions(CorrectedGuiPlan(choice, user, layout, home)), fs);
            && (choice != "3" ==> r.Ok?)
            && (r.Err? ==> choice == "3" && 7 <= r.error <= 8)
  {
    var prefix := Actions(InstallCommands(choice)) + XdgSteps(user);
    var rest := Actions(DisplayManagerSteps(choice, layout, home) + FinalSteps(user));
    PlanWithActions(choice, user, XdgSteps(user), layout, home);
    CorrectedXdgPrefixRuns(choice, user, fs);
    SimulateAppend(prefix, rest, fs);
    BranchRaisesOnlyInHyprland(choice, user, layout, home, Simulate(prefix, fs).value);
  }
}
