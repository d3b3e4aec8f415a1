/**
 * The configuration script each installer runs inside the new system with
 * `arch-chroot`: the lines of the payload, the commands on them whose
 * position matters, and how `bash` runs the script.
 *
 * `bash` runs the script without `set -e`: every line runs whatever the
 * lines before it returned, `a && b` runs `b` only when `a` exits 0, and
 * the script's exit status is the status of the last command that ran.
 */
module ChrootScript {
  import opened Text
  import opened Ordering

  /** The `XDG_*_HOME` variables `Install.py` exports for every zsh user. */
  datatype XdgVar = ConfigHome | CacheHome | DataHome | StateHome

  /** The systemd units the installers enable. */
  datatype Unit = NetworkManager | GrubBtrfsd | SnapperTimeline | SnapperCleanup

  /** The zsh start-up files `install.py` writes with a here-document. */
  datatype ZshFile = Zshenv | Zshrc

  /** One command of the payload; `Render` gives its text. */
  datatype Command =
    | LinkTimezone(tz: string)               // `/etc/localtime` points at the zone file
    | SyncHardwareClock
    | SetHostname(host: string)
    | SelectLocale                           // `en_US.UTF-8 UTF-8` into `/etc/locale.gen`
    | GenerateLocales
    | SetLang
    | SetKeymap
    | SetPassword(account: string, pw: string)   // `echo "account:pw" | chpasswd`
    | Useradd(user: string)                  // create the login user with zsh and `wheel` membership
    | GrantSudo(user: string)
    | MakeSkeleton                           // the XDG directories under `/etc/skel`
    | ZshDefaultShell                        // `SHELL=/usr/bin/zsh` in `/etc/default/useradd`
    | ConfigureZram
    | ExportXdg(v: XdgVar)                   // one `export` appended to `/etc/zsh/zshenv`
    | WriteZshFile(file: ZshFile, body: string)   // `cat <<EOF > file`, the body, `EOF`
    | LoadAmdgpuEarly                        // `MODULES=(amdgpu)` in `/etc/mkinitcpio.conf`
    | SetHooks(withBaseAndFsck: bool)        // the `HOOKS=(...)` rewrite
    | RebuildInitramfs                       // `mkinitcpio -p linux`
    | CleanPackageCache                      // `pacman -Sc --noconfirm `
    | UnmountSnapshots                       // `umount /.snapshots`
    | RemoveSnapshots                        // `rm -rf /.snapshots`
    | CreateSnapperConfig                    // `snapper -c root create-config /`
    | MakeSnapshotsDir                       // `mkdir /.snapshots`
    | MountAll
    | ChownSnapshots                         // `/.snapshots` to group `wheel`
    | InstallGrub                            // `grub-install` for x86_64 EFI
    | GenerateGrubConfig                     // `grub-mkconfig -o /boot/grub/grub.cfg`
    | KeepOsProber                           // append `GRUB_DISABLE_OS_PROBER=false` to `/etc/default/grub`
    | EnableServices(units: seq<Unit>)       // `systemctl enable <units>`
    | Snapshot(baseline: bool)               // a single snapper snapshot of the root config

  const SystemdHooks: string := "systemd autodetect modconf kms keyboard sd-vconsole block filesystems"

  function XdgExport(v: XdgVar): string {
    match v
    case ConfigHome => "XDG_CONFIG_HOME=\"$HOME/.config\""
    case CacheHome => "XDG_CACHE_HOME=\"$HOME/.cache\""
    case DataHome => "XDG_DATA_HOME=\"$HOME/.local/share\""
    case StateHome => "XDG_STATE_HOME=\"$HOME/.local/state\""
  }

  function UnitName(u: Unit): string {
    match u
    case NetworkManager => "NetworkManager"
    case GrubBtrfsd => "grub-btrfsd"
    case SnapperTimeline => "snapper-timeline.timer"
    case SnapperCleanup => "snapper-cleanup.timer"
  }

  function ZshPath(f: ZshFile): string {
    match f
    case Zshenv => "/etc/zsh/zshenv"
    case Zshrc => "/etc/zsh/zshrc"
  }

  function Render(c: Command): string {
    match c
    case LinkTimezone(tz) => "ln -sf /usr/share/zoneinfo/" + tz + " /etc/localtime"
    case SyncHardwareClock => "hwclock --systohc"
    case SetHostname(host) => "echo \"" + host + "\" > /etc/hostname"
    case SelectLocale => "echo \"en_US.UTF-8 UTF-8\" > /etc/locale.gen"
    case GenerateLocales => "locale-gen"
    case SetLang => "echo \"LANG=en_US.UTF-8\" > /etc/locale.conf"
    case SetKeymap => "echo \"KEYMAP=us\" > /etc/vconsole.conf"
    case SetPassword(account, pw) => "echo \"" + account + ":" + pw + "\" | chpasswd"
    case Useradd(user) => "useradd -m -G wheel -s /usr/bin/zsh " + user
    case GrantSudo(user) => "echo \"" + user + " ALL=(ALL) ALL\" >> /etc/sudoers"
    case MakeSkeleton => "mkdir -p /etc/skel/{.config,.cache,.local/share,.local/state/zsh}"
    case ZshDefaultShell => "sed -i 's/SHELL=.*/SHELL=\\/usr\\/bin\\/zsh/' /etc/default/useradd"
    case ConfigureZram =>
      "echo -e \"[zram0]\\nzram-size = ram / 2\\ncompression-algorithm = zstd\" > /etc/systemd/zram-generator.conf"
    case ExportXdg(v) => "echo 'export " + XdgExport(v) + "' >> /etc/zsh/zshenv"
    case WriteZshFile(f, body) => "cat <<EOF > " + ZshPath(f) + "\n" + body + "EOF"
    case LoadAmdgpuEarly => "sed -i 's/^MODULES=(.*/MODULES=(amdgpu)/' /etc/mkinitcpio.conf"
    case SetHooks(full) =>
      "sed -i 's/^HOOKS=(.*/HOOKS=(" + (if full then "base " + SystemdHooks + " fsck" else SystemdHooks) + ")/' /etc/mkinitcpio.conf"
    case RebuildInitramfs => "mkinitcpio -p linux"
    case CleanPackageCache => "pacman -Sc --noconfirm "
    case UnmountSnapshots => "umount /.snapshots"
    case RemoveSnapshots => "rm -rf /.snapshots"
    case CreateSnapperConfig => "snapper -c root create-config /"
    case MakeSnapshotsDir => "mkdir /.snapshots"
    case MountAll => "mount -a"
    case ChownSnapshots => "chown -R :wheel /.snapshots"
    case InstallGrub => "grub-install --target=x86_64-efi --efi-directory=/boot --bootloader-id=GRUB"
    case GenerateGrubConfig => "grub-mkconfig -o /boot/grub/grub.cfg"
    case KeepOsProber => "echo \"GRUB_DISABLE_OS_PROBER=false\" >> /etc/default/grub"
    case EnableServices(units) =>
      "systemctl enable " + Join(seq(|units|, i requires 0 <= i < |units| => UnitName(units[i])), " ")
    case Snapshot(baseline) =>
      "snapper -c root create --description \"" + (if baseline then "Fresh Baseline Install" else "Final Base Setup")
      + "\" --type single"
  }

  /** One line of the payload. */
  datatype Line =
    | Simple(command: Command)
    | AndThen(first: Command, second: Command)   // `first && second`
    | Comment(text: string)
    | Blank

  function RenderLine(l: Line): string {
    match l
    case Simple(c) => Render(c)
    case AndThen(a, b) => Render(a) + " && " + Render(b)
    case Comment(text) => "# " + text
    case Blank => ""
  }

  /** The text of a payload: the triple-quoted f-string opens and closes with a line break. */
  function ScriptText(lines: seq<Line>): string {
    "\n" + Join(seq(|lines|, i requires 0 <= i < |lines| => RenderLine(lines[i])), "\n") + "\n"
  }

  // Line classifiers used by the order lemmas.

  predicate CreatesUser(l: Line) { l.Simple? && l.command.Useradd? }
  predicate RebuildsInitramfs(l: Line) { l.Simple? && l.command == RebuildInitramfs }
  predicate CleansCache(l: Line) { l.Simple? && l.command == CleanPackageCache }
  predicate ResetsSnapper(l: Line) {
    || (l.Simple? && l.command in {UnmountSnapshots, RemoveSnapshots, CreateSnapperConfig, MakeSnapshotsDir})
    || (l.AndThen? && l.first in {UnmountSnapshots, RemoveSnapshots})
  }
  predicate ConfiguresSnapper(l: Line) { l.Simple? && l.command == CreateSnapperConfig }
  predicate InstallsGrub(l: Line) { l.Simple? && l.command == InstallGrub }
  predicate ConfiguresGrub(l: Line) { l.Simple? && l.command == GenerateGrubConfig }
  predicate SetsUpGrub(l: Line) { InstallsGrub(l) || ConfiguresGrub(l) }
  predicate SetsOsProber(l: Line) { l.Simple? && l.command == KeepOsProber }
  predicate EnablesServices(l: Line) { l.Simple? && l.command.EnableServices? }
  predicate TakesSnapshot(l: Line) { l.Simple? && l.command.Snapshot? }

  // The payload lines shared by the installers.

  /** Time zone, hardware clock, host name and the `en_US.UTF-8` locale. */
  function LocaleLines(tz: string, host: string): seq<Line> {
    [ Simple(LinkTimezone(tz)), Simple(SyncHardwareClock), Simple(SetHostname(host)),
      Simple(SelectLocale), Simple(GenerateLocales), Simple(SetLang) ]
  }

  const RootAccount: string := "root"

  /** Password and sudo rights for the new user. */
  function UserAccessLines(user: string, pw: string): seq<Line> {
    [Simple(SetPassword(user, pw)), Simple(GrantSudo(user))]
  }

  /** Throw away the `.snapshots` subvolume mount, let snapper create its config, and put the mountpoint back. */
  const SnapperResetLines: seq<Line> := [
    AndThen(UnmountSnapshots, RemoveSnapshots),
    Simple(CreateSnapperConfig),
    AndThen(RemoveSnapshots, MakeSnapshotsDir),
    Simple(MountAll),
    Simple(ChownSnapshots)
  ]

  const GrubLines: seq<Line> := [Simple(InstallGrub), Simple(GenerateGrubConfig)]

  // The payload of `Install.py`, in the groups its comments mark.

  const InstallPyLocaleHeading: string := "1. Localization & Console"
  const InstallPyUsersHeading: string := "2. Users & Passwords"
  const InstallPyZramHeading: string := "3. Zram Configuration"
  const InstallPyXdgHeading: string := "4. XDG Base Directory Enforcement (System-wide)"
  const InstallPyInitcpioHeading: string := "5. Initcpio: Systemd hooks & AMD GPU Early Load"
  const InstallPySnapperHeading: string := "6. Snapper Configuration (Sync with subvolume)"
  const InstallPyGrubHeading: string := "7. Bootloader (GRUB)"
  const InstallPyServicesHeading: string := "8. Enable System Services"
  const InstallPySnapshotHeading: string := "Create initial baseline snapshot"

  /** The locale group both `Install.py` and `install.py` open with. */
  function LocaleSection(tz: string, host: string): seq<Line> {
    [Comment(InstallPyLocaleHeading)] + LocaleLines(tz, host) + [Simple(SetKeymap), Blank]
  }

  function InstallPyUsers(user: string, pw: string): seq<Line> {
    [Comment(InstallPyUsersHeading), Simple(SetPassword(RootAccount, pw)), Simple(Useradd(user))] + UserAccessLines(user, pw) + [Blank]
  }

  const InstallPyZram: seq<Line> := [Comment(InstallPyZramHeading), Simple(ConfigureZram), Blank]

  const InstallPyXdg: seq<Line> := [
    Comment(InstallPyXdgHeading),
    Simple(ExportXdg(ConfigHome)), Simple(ExportXdg(CacheHome)), Simple(ExportXdg(DataHome)), Simple(ExportXdg(StateHome)),
    Blank
  ]

  const InstallPyInitcpio: seq<Line> :=
    [Comment(InstallPyInitcpioHeading), Simple(LoadAmdgpuEarly), Simple(SetHooks(false)), Simple(RebuildInitramfs), Blank]

  const InstallPySnapper: seq<Line> := [Comment(InstallPySnapperHeading)] + SnapperResetLines + [Blank]

  const InstallPyGrub: seq<Line> := [Comment(InstallPyGrubHeading)] + GrubLines + [Blank]

  const InstallPyServices: seq<Line> := [
    Comment(InstallPyServicesHeading),
    Simple(EnableServices([NetworkManager])),
    Simple(EnableServices([GrubBtrfsd])),
    Simple(EnableServices([SnapperTimeline])),
    Simple(EnableServices([SnapperCleanup])),
    Blank
  ]

  const InstallPySnapshot: seq<Line> := [Comment(InstallPySnapshotHeading), Simple(Snapshot(true))]

  function InstallPySections(tz: string, host: string, user: string, pw: string): seq<seq<Line>> {
    [ LocaleSection(tz, host), InstallPyUsers(user, pw), InstallPyZram, InstallPyXdg, InstallPyInitcpio,
      InstallPySnapper, InstallPyGrub, InstallPyServices, InstallPySnapshot ]
  }

  function InstallPyPayload(tz: string, host: string, user: string, pw: string): seq<Line> {
    Concat(InstallPySections(tz, host, user, pw))
  }

  // The payload of `install.py`. Its groups are split further where two tracked steps share one.

  const VariantZshHeading: string := "2. Global Zsh & XDG Configuration (For All Users)"
  const VariantUsersHeading: string := "3. Skeleton & Users"
  const VariantHardwareHeading: string := "4. Hardware (AMD) & Boot (Systemd)"
  const VariantCleanupHeading: string := "5. Cleanup & Snapper"
  const VariantGrubHeading: string := "6. GRUB"
  const VariantServicesHeading: string := "7. Finalize Services"

  /** The here-documents that write the system-wide zsh files; their bodies are given, not modelled. */
  function VariantZsh(zshenv: string, zshrc: string): seq<Line> {
    [Comment(VariantZshHeading), Simple(WriteZshFile(Zshenv, zshenv)), Blank, Simple(WriteZshFile(Zshrc, zshrc)), Blank]
  }

  function VariantUsers(user: string, pw: string): seq<Line> {
    [ Comment(VariantUsersHeading),
      Simple(MakeSkeleton),
      Simple(SetPassword(RootAccount, pw)),
      Simple(ZshDefaultShell),
      Simple(Useradd(user)) ] + UserAccessLines(user, pw) + [Blank]
  }

  const VariantHardware: seq<Line> :=
    [Comment(VariantHardwareHeading), Simple(ConfigureZram), Simple(LoadAmdgpuEarly), Simple(SetHooks(false)), Simple(RebuildInitramfs), Blank]

  const VariantCleanup: seq<Line> := [Comment(VariantCleanupHeading), Simple(CleanPackageCache)]

  const VariantSnapper: seq<Line> := SnapperResetLines + [Blank]

  const VariantGrub: seq<Line> := [Comment(VariantGrubHeading)] + GrubLines + [Blank]

  const VariantServices: seq<Line> :=
    [Comment(VariantServicesHeading), Simple(EnableServices([NetworkManager, GrubBtrfsd, SnapperTimeline, SnapperCleanup]))]

  const VariantSnapshot: seq<Line> := [Simple(Snapshot(false))]

  function InstallPyVariantSections(tz: string, host: string, user: string, pw: string, zshenv: string, zshrc: string): seq<seq<Line>> {
    [ LocaleSection(tz, host), VariantZsh(zshenv, zshrc), VariantUsers(user, pw), VariantHardware, VariantCleanup,
      VariantSnapper, VariantGrub, VariantServices, VariantSnapshot ]
  }

  function InstallPyVariantPayload(tz: string, host: string, user: string, pw: string, zshenv: string, zshrc: string): seq<Line> {
    Concat(InstallPyVariantSections(tz, host, user, pw, zshenv, zshrc))
  }

  // The commands `base_install.py` feeds to the chroot shell.

  function BaseLocale(host: string, tz: string, pw: string): seq<Line> {
    LocaleLines(tz, host) + [Simple(SetPassword(RootAccount, pw))]
  }

  const BaseInitcpio: seq<Line> := [Simple(LoadAmdgpuEarly), Simple(SetHooks(true)), Simple(RebuildInitramfs)]

  function BaseSections(host: string, user: string, tz: string, pw: string): seq<seq<Line>> {
    [ BaseLocale(host, tz, pw),
      [Simple(Useradd(user))] + UserAccessLines(user, pw),
      BaseInitcpio,
      [Simple(KeepOsProber)],
      [Simple(InstallGrub)],
      [Simple(GenerateGrubConfig)],
      [Simple(EnableServices([NetworkManager, GrubBtrfsd, SnapperTimeline]))] ]
  }

  function BasePayload(host: string, user: string, tz: string, pw: string): seq<Line> {
    Concat(BaseSections(host, user, tz, pw))
  }

  // Order facts about the payloads.

  lemma InstallPyUserGroup(tz: string, host: string, user: string, pw: string)
    ensures OnlyIn(InstallPySections(tz, host, user, pw), 1, CreatesUser)
  {
    var parts := InstallPySections(tz, host, user, pw);
    assert parts[1][2] in parts[1];
  }

  lemma InstallPyInitramfsGroup(tz: string, host: string, user: string, pw: string)
    ensures OnlyIn(InstallPySections(tz, host, user, pw), 4, RebuildsInitramfs)
  {
    var parts := InstallPySections(tz, host, user, pw);
    assert parts[4][3] in parts[4];
  }

  lemma InstallPySnapperGroup(tz: string, host: string, user: string, pw: string)
    ensures OnlyIn(InstallPySections(tz, host, user, pw), 5, ConfiguresSnapper)
  {
    var parts := InstallPySections(tz, host, user, pw);
    assert parts[5][2] in parts[5];
  }

  lemma InstallPyGrubGroup(tz: string, host: string, user: string, pw: string)
    ensures OnlyIn(InstallPySections(tz, host, user, pw), 6, InstallsGrub)
  {
    var parts := InstallPySections(tz, host, user, pw);
    assert parts[6][1] in parts[6];
  }

  lemma InstallPySnapshotGroup(tz: string, host: string, user: string, pw: string)
    ensures OnlyIn(InstallPySections(tz, host, user, pw), 8, TakesSnapshot)
  {
    var parts := InstallPySections(tz, host, user, pw);
    assert parts[8][1] in parts[8];
  }

  /** In `Install.py`'s payload: user, then initramfs, then snapper config, then GRUB, then the baseline snapshot. */
  lemma InstallPyOrder(tz: string, host: string, user: string, pw: string)
    ensures Precedes(InstallPyPayload(tz, host, user, pw), CreatesUser, RebuildsInitramfs)
    ensures Precedes(InstallPyPayload(tz, host, user, pw), RebuildsInitramfs, ConfiguresSnapper)
    ensures Precedes(InstallPyPayload(tz, host, user, pw), ConfiguresSnapper, InstallsGrub)
    ensures Precedes(InstallPyPayload(tz, host, user, pw), InstallsGrub, TakesSnapshot)
  {
    var parts := InstallPySections(tz, host, user, pw);
    InstallPyUserGroup(tz, host, user, pw);
    InstallPyInitramfsGroup(tz, host, user, pw);
    InstallPySnapperGroup(tz, host, user, pw);
    InstallPyGrubGroup(tz, host, user, pw);
    InstallPySnapshotGroup(tz, host, user, pw);
    PrecedesAcross(parts, 1, 4, CreatesUser, RebuildsInitramfs);
    PrecedesAcross(parts, 4, 5, RebuildsInitramfs, ConfiguresSnapper);
    PrecedesAcross(parts, 5, 6, ConfiguresSnapper, InstallsGrub);
    PrecedesAcross(parts, 6, 8, InstallsGrub, TakesSnapshot);
  }

  lemma VariantUserGroup(tz: string, host: string, user: string, pw: string, zshenv: string, zshrc: string)
    ensures OnlyIn(InstallPyVariantSections(tz, host, user, pw, zshenv, zshrc), 2, CreatesUser)
  {
    var parts := InstallPyVariantSections(tz, host, user, pw, zshenv, zshrc);
    assert parts[2][4] in parts[2];
  }

  lemma VariantInitramfsGroup(tz: string, host: string, user: string, pw: string, zshenv: string, zshrc: string)
    ensures OnlyIn(InstallPyVariantSections(tz, host, user, pw, zshenv, zshrc), 3, RebuildsInitramfs)
  {
    var parts := InstallPyVariantSections(tz, host, user, pw, zshenv, zshrc);
    assert parts[3][4] in parts[3];
  }

  lemma VariantCacheGroup(tz: string, host: string, user: string, pw: string, zshenv: string, zshrc: string)
    ensures OnlyIn(InstallPyVariantSections(tz, host, user, pw, zshenv, zshrc), 4, CleansCache)
  {
    var parts := InstallPyVariantSections(tz, host, user, pw, zshenv, zshrc);
    assert parts[4][1] in parts[4];
  }

  lemma VariantSnapperGroup(tz: string, host: string, user: string, pw: string, zshenv: string, zshrc: string)
    ensures OnlyIn(InstallPyVariantSections(tz, host, user, pw, zshenv, zshrc), 5, ResetsSnapper)
  {
    var parts := InstallPyVariantSections(tz, host, user, pw, zshenv, zshrc);
    assert parts[5][0] in parts[5];
  }

  lemma VariantGrubGroup(tz: string, host: string, user: string, pw: string, zshenv: string, zshrc: string)
    ensures OnlyIn(InstallPyVariantSections(tz, host, user, pw, zshenv, zshrc), 6, SetsUpGrub)
  {
    var parts := InstallPyVariantSections(tz, host, user, pw, zshenv, zshrc);
    assert parts[6][1] in parts[6];
    forall m | 0 <= m < |parts| && m != 6 ensures Never(parts[m], SetsUpGrub) {
      if m < 3 {
        assert parts[m] == [LocaleSection(tz, host), VariantZsh(zshenv, zshrc), VariantUsers(user, pw)][m];
      } else {
        assert parts[m] == [VariantHardware, VariantCleanup, VariantSnapper, [], VariantServices, VariantSnapshot][m - 3];
      }
    }
  }

  lemma VariantServicesGroup(tz: string, host: string, user: string, pw: string, zshenv: string, zshrc: string)
    ensures OnlyIn(InstallPyVariantSections(tz, host, user, pw, zshenv, zshrc), 7, EnablesServices)
  {
    var parts := InstallPyVariantSections(tz, host, user, pw, zshenv, zshrc);
    assert parts[7][1] in parts[7];
  }

  lemma VariantSnapshotGroup(tz: string, host: string, user: string, pw: string, zshenv: string, zshrc: string)
    ensures OnlyIn(InstallPyVariantSections(tz, host, user, pw, zshenv, zshrc), 8, TakesSnapshot)
  {
    var parts := InstallPyVariantSections(tz, host, user, pw, zshenv, zshrc);
    assert parts[8][0] in parts[8];
  }

  /**
   * In `install.py`'s payload: user, initramfs, package-cache cleanup, the
   * snapper reset, GRUB, the services and the final snapshot, in that order.
   */
  lemma InstallPyVariantOrder(tz: string, host: string, user: string, pw: string, zshenv: string, zshrc: string)
    ensures Precedes(InstallPyVariantPayload(tz, host, user, pw, zshenv, zshrc), CreatesUser, RebuildsInitramfs)
    ensures Precedes(InstallPyVariantPayload(tz, host, user, pw, zshenv, zshrc), RebuildsInitramfs, CleansCache)
    ensures Precedes(InstallPyVariantPayload(tz, host, user, pw, zshenv, zshrc), CleansCache, ResetsSnapper)
    ensures Precedes(InstallPyVariantPayload(tz, host, user, pw, zshenv, zshrc), ResetsSnapper, SetsUpGrub)
    ensures Precedes(InstallPyVariantPayload(tz, host, user, pw, zshenv, zshrc), SetsUpGrub, EnablesServices)
    ensures Precedes(InstallPyVariantPayload(tz, host, user, pw, zshenv, zshrc), EnablesServices, TakesSnapshot)
  {
    var parts := InstallPyVariantSections(tz, host, user, pw, zshenv, zshrc);
    VariantUserGroup(tz, host, user, pw, zshenv, zshrc);
    VariantInitramfsGroup(tz, host, user, pw, zshenv, zshrc);
    VariantCacheGroup(tz, host, user, pw, zshenv, zshrc);
    VariantSnapperGroup(tz, host, user, pw, zshenv, zshrc);
    VariantGrubGroup(tz, host, user, pw, zshenv, zshrc);
    VariantServicesGroup(tz, host, user, pw, zshenv, zshrc);
    VariantSnapshotGroup(tz, host, user, pw, zshenv, zshrc);
    PrecedesAcross(parts, 2, 3, CreatesUser, RebuildsInitramfs);
    PrecedesAcross(parts, 3, 4, RebuildsInitramfs, CleansCache);
    PrecedesAcross(parts, 4, 5, CleansCache, ResetsSnapper);
    PrecedesAcross(parts, 5, 6, ResetsSnapper, SetsUpGrub);
    PrecedesAcross(parts, 6, 7, SetsUpGrub, EnablesServices);
    PrecedesAcross(parts, 7, 8, EnablesServices, TakesSnapshot);
  }

  lemma BaseUserGroup(host: string, user: string, tz: string, pw: string)
    ensures OnlyIn(BaseSections(host, user, tz, pw), 1, CreatesUser)
  {
    var parts := BaseSections(host, user, tz, pw);
    assert parts[1][0] in parts[1];
  }

  lemma BaseInitramfsGroup(host: string, user: string, tz: string, pw: string)
    ensures OnlyIn(BaseSections(host, user, tz, pw), 2, RebuildsInitramfs)
  {
    var parts := BaseSections(host, user, tz, pw);
    assert parts[2][2] in parts[2];
  }

  lemma BaseOsProberGroup(host: string, user: string, tz: string, pw: string)
    ensures OnlyIn(BaseSections(host, user, tz, pw), 3, SetsOsProber)
  {
    var parts := BaseSections(host, user, tz, pw);
    assert parts[3][0] in parts[3];
  }

  lemma BaseGrubInstallGroup(host: string, user: string, tz: string, pw: string)
    ensures OnlyIn(BaseSections(host, user, tz, pw), 4, InstallsGrub)
  {
    var parts := BaseSections(host, user, tz, pw);
    assert parts[4][0] in parts[4];
  }

  lemma BaseGrubConfigGroup(host: string, user: string, tz: string, pw: string)
    ensures OnlyIn(BaseSections(host, user, tz, pw), 5, ConfiguresGrub)
  {
    var parts := BaseSections(host, user, tz, pw);
    assert parts[5][0] in parts[5];
  }

  /** In `base_install.py`'s commands: user before initramfs; the OS-prober setting before both GRUB steps. */
  lemma BaseOrder(host: string, user: string, tz: string, pw: string)
    ensures Precedes(BasePayload(host, user, tz, pw), CreatesUser, RebuildsInitramfs)
    ensures Precedes(BasePayload(host, user, tz, pw), SetsOsProber, InstallsGrub)
    ensures Precedes(BasePayload(host, user, tz, pw), SetsOsProber, ConfiguresGrub)
  {
    var parts := BaseSections(host, user, tz, pw);
    BaseUserGroup(host, user, tz, pw);
    BaseInitramfsGroup(host, user, tz, pw);
    BaseOsProberGroup(host, user, tz, pw);
    BaseGrubInstallGroup(host, user, tz, pw);
    BaseGrubConfigGroup(host, user, tz, pw);
    PrecedesAcross(parts, 1, 2, CreatesUser, RebuildsInitramfs);
    PrecedesAcross(parts, 3, 4, SetsOsProber, InstallsGrub);
    PrecedesAcross(parts, 3, 5, SetsOsProber, ConfiguresGrub);
  }

  // How `bash` runs a payload.

  /** The exit statuses the commands of a line would return: `first` for its command, `second` for the one after `&&`. */
  datatype LineCodes = LineCodes(first: int, second: int)

  /** What `bash` did with a script: the commands it ran, in order, and its exit status. */
  datatype BashRun = BashRun(ran: seq<Command>, status: int)

  /** The commands one line runs: the second command of `a && b` only when `a` exits 0. */
  function LineRan(l: Line, c: LineCodes): seq<Command> {
    match l
    case Simple(cmd) => [cmd]
    case AndThen(a, b) => if c.first == 0 then [a, b] else [a]
    case _ => []
  }

  /** `$?` after the line, given `$?` before it; comments and blank lines leave it alone. */
  function LineStatus(l: Line, c: LineCodes, before: int): int {
    match l
    case Simple(_) => c.first
    case AndThen(_, _) => if c.first == 0 then c.second else c.first
    case _ => before
  }

  /** Run `lines` in order with `$?` equal to `status` at the start; no line stops the script. */
  function RunFrom(lines: seq<Line>, codes: seq<LineCodes>, status: int): BashRun
    requires |codes| == |lines|
    decreases |lines|
  {
    if |lines| == 0 then BashRun([], status)
    else
      var rest := RunFrom(lines[1..], codes[1..], LineStatus(lines[0], codes[0], status));
      BashRun(LineRan(lines[0], codes[0]) + rest.ran, rest.status)
  }

  /** `bash` running a whole script; a script that runs no command exits 0. */
  function RunScript(lines: seq<Line>, codes: seq<LineCodes>): BashRun
    requires |codes| == |lines|
  {
    RunFrom(lines, codes, 0)
  }

  /** Running `x` then `y` is running `x + y`: the status `x` leaves is the one `y` starts from. */
  lemma {:induction false} RunAppend(x: seq<Line>, cx: seq<LineCodes>, y: seq<Line>, cy: seq<LineCodes>, status: int)
    requires |cx| == |x| && |cy| == |y|
    ensures var rx := RunFrom(x, cx, status);
            var ry := RunFrom(y, cy, rx.status);
            RunFrom(x + y, cx + cy, status) == BashRun(rx.ran + ry.ran, ry.status)
    decreases |x|
  {
    if |x| > 0 {
      assert (x + y)[1..] == x[1..] + y && (cx + cy)[1..] == cx[1..] + cy;
      RunAppend(x[1..], cx[1..], y, cy, LineStatus(x[0], cx[0], status));
      var rx := RunFrom(x, cx, status);
      var ry := RunFrom(y, cy, rx.status);
      var ra := RunFrom(x[1..], cx[1..], LineStatus(x[0], cx[0], status));
      assert LineRan(x[0], cx[0]) + (ra.ran + ry.ran) == (LineRan(x[0], cx[0]) + ra.ran) + ry.ran;
    } else {
      assert x + y == y && cx + cy == cy;
    }
  }

  /** No line stops the script: every plain command and every first command of `&&` runs, whatever the exit codes. */
  lemma {:induction false} EveryLineRuns(lines: seq<Line>, codes: seq<LineCodes>, status: int)
    requires |codes| == |lines|
    ensures forall i :: 0 <= i < |lines| && lines[i].Simple? ==> lines[i].command in RunFrom(lines, codes, status).ran
    ensures forall i :: 0 <= i < |lines| && lines[i].AndThen? ==> lines[i].first in RunFrom(lines, codes, status).ran
    decreases |lines|
  {
    if |lines| > 0 {
      var st := LineStatus(lines[0], codes[0], status);
      EveryLineRuns(lines[1..], codes[1..], st);
      var rest := RunFrom(lines[1..], codes[1..], st);
      forall i | 0 <= i < |lines| && (lines[i].Simple? || lines[i].AndThen?)
        ensures (if lines[i].Simple? then lines[i].command else lines[i].first) in RunFrom(lines, codes, status).ran
      {
        if i == 0 {
          assert LineRan(lines[0], codes[0])[0] == (if lines[0].Simple? then lines[0].command else lines[0].first);
        } else {
          assert lines[i] == lines[1..][i - 1];
        }
      }
    }
  }

  /** A command runs exactly when some line runs it. */
  lemma {:induction false} RanMembers(lines: seq<Line>, codes: seq<LineCodes>, status: int)
    requires |codes| == |lines|
    ensures forall c :: c in RunFrom(lines, codes, status).ran <==>
              exists i :: 0 <= i < |lines| && c in LineRan(lines[i], codes[i])
    decreases |lines|
  {
    if |lines| > 0 {
      var st := LineStatus(lines[0], codes[0], status);
      RanMembers(lines[1..], codes[1..], st);
      var head, rest := LineRan(lines[0], codes[0]), RunFrom(lines[1..], codes[1..], st).ran;
      forall c ensures c in head + rest <==> exists i :: 0 <= i < |lines| && c in LineRan(lines[i], codes[i]) {
        if c in rest {
          var j :| 0 <= j < |lines| - 1 && c in LineRan(lines[1..][j], codes[1..][j]);
          assert lines[1..][j] == lines[j + 1] && codes[1..][j] == codes[j + 1];
        }
        if exists i :: 0 <= i < |lines| && c in LineRan(lines[i], codes[i]) {
          var i :| 0 <= i < |lines| && c in LineRan(lines[i], codes[i]);
          if i > 0 {
            assert lines[i] == lines[1..][i - 1] && codes[i] == codes[1..][i - 1];
          }
        }
      }
    }
  }

  /** The exit status of a script read from its end: the status of the last line that runs a command, `status` if none does. */
  function LastStatus(lines: seq<Line>, codes: seq<LineCodes>, status: int): int
    requires |codes| == |lines|
    decreases |lines|
  {
    if |lines| == 0 then status
    else
      var k := |lines| - 1;
      if lines[k].Comment? || lines[k].Blank? then LastStatus(lines[..k], codes[..k], status)
      else LineStatus(lines[k], codes[k], 0)
  }

  /** The script exits with the status of its last command, whatever happened before it. */
  lemma {:induction false} ExitStatusIsLastCommand(lines: seq<Line>, codes: seq<LineCodes>, status: int)
    requires |codes| == |lines|
    ensures RunFrom(lines, codes, status).status == LastStatus(lines, codes, status)
    decreases |lines|
  {
    if |lines| > 0 {
      var k := |lines| - 1;
      var x, cx := lines[..k], codes[..k];
      assert lines == x + [lines[k]] && codes == cx + [codes[k]];
      RunAppend(x, cx, [lines[k]], [codes[k]], status);
      ExitStatusIsLastCommand(x, cx, status);
    }
  }

  /**
   * The snapper reset block under any exit codes: `rm -rf /.snapshots`
   * directly follows the `umount` exactly when the `umount` succeeded,
   * `mkdir /.snapshots` runs exactly when the second `rm -rf` succeeded, and
   * the snapper config is created either way.
   */
  lemma SnapperResetGuards(codes: seq<LineCodes>, status: int)
    requires |codes| == |SnapperResetLines|
    ensures var ran := RunFrom(SnapperResetLines, codes, status).ran;
            && |ran| >= 2 && ran[0] == UnmountSnapshots
            && (ran[1] == RemoveSnapshots <==> codes[0].first == 0)
            && CreateSnapperConfig in ran
            && (MakeSnapshotsDir in ran <==> codes[2].first == 0)
  {
    var lines := SnapperResetLines;
    var rest := RunFrom(lines[1..], codes[1..], LineStatus(lines[0], codes[0], status));
    assert lines[1..][0] == Simple(CreateSnapperConfig);
    assert rest.ran[0] == CreateSnapperConfig;
    RanMembers(lines, codes, status);
    assert CreateSnapperConfig in LineRan(lines[1], codes[1]);
    if codes[2].first == 0 {
      assert MakeSnapshotsDir in LineRan(lines[2], codes[2]);
    }
  }

  /** `Install.py`'s chroot run exits with the status of the final snapshot alone: a failed `grub-install` does not show. */
  lemma InstallPyExitStatus(tz: string, host: string, user: string, pw: string, codes: seq<LineCodes>)
    requires |codes| == |InstallPyPayload(tz, host, user, pw)|
    ensures |codes| > 0
    ensures InstallPyPayload(tz, host, user, pw)[|codes| - 1] == Simple(Snapshot(true))
    ensures RunScript(InstallPyPayload(tz, host, user, pw), codes).status == codes[|codes| - 1].first
  {
    var lines := InstallPyPayload(tz, host, user, pw);
    ConcatLast(InstallPySections(tz, host, user, pw));
    ExitStatusIsLastCommand(lines, codes, 0);
  }

  /** `install.py`'s chroot run exits with the status of the final snapshot alone. */
  lemma InstallPyVariantExitStatus(tz: string, host: string, user: string, pw: string, zshenv: string, zshrc: string, codes: seq<LineCodes>)
    requires |codes| == |InstallPyVariantPayload(tz, host, user, pw, zshenv, zshrc)|
    ensures |codes| > 0
    ensures InstallPyVariantPayload(tz, host, user, pw, zshenv, zshrc)[|codes| - 1] == Simple(Snapshot(false))
    ensures RunScript(InstallPyVariantPayload(tz, host, user, pw, zshenv, zshrc), codes).status == codes[|codes| - 1].first
  {
    var lines := InstallPyVariantPayload(tz, host, user, pw, zshenv, zshrc);
    ConcatLast(InstallPyVariantSections(tz, host, user, pw, zshenv, zshrc));
    ExitStatusIsLastCommand(lines, codes, 0);
  }

  /** `base_install.py`'s chroot shell exits with the status of `systemctl enable` alone. */
  lemma BaseExitStatus(host: string, user: string, tz: string, pw: string, codes: seq<LineCodes>)
    requires |codes| == |BasePayload(host, user, tz, pw)|
    ensures |codes| > 0
    ensures BasePayload(host, user, tz, pw)[|codes| - 1] == Simple(EnableServices([NetworkManager, GrubBtrfsd, SnapperTimeline]))
    ensures RunScript(BasePayload(host, user, tz, pw), codes).status == codes[|codes| - 1].first
  {
    var lines := BasePayload(host, user, tz, pw);
    ConcatLast(BaseSections(host, user, tz, pw));
    ExitStatusIsLastCommand(lines, codes, 0);
  }
}
