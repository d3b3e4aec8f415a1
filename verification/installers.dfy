/**
 * The three installers as pipelines of stages: `setup_partitions`, the
 * `pacstrap` and `genfstab` calls, and the chroot configuration, each a
 * plan of steps run through the fail-fast `run` helper.
 */
module Installers {
  import opened Wrappers
  import opened Text
  import opened Commands
  import opened Ordering
  import opened Executor
  import opened Pipeline
  import opened Partitioning
  import opened Prompts
  import ChrootScript

  /** The configuration block at the top of `Install.py` and `install.py`. */
  datatype Profile = Profile(disk: string, hostname: string, user: string, timezone: string, tempPassword: string, packages: seq<string>)

  const Packages: seq<string> := [
    "base", "linux", "linux-firmware", "amd-ucode", "base-devel",
    "git", "man-pages", "man-db", "texinfo", "pacman-contrib",
    "nano", "vim", "xdg-user-dirs", "networkmanager", "wpa_supplicant",
    "zsh", "zsh-autosuggestions", "zsh-syntax-highlighting",
    "zram-generator", "grub", "efibootmgr", "snapper", "grub-btrfs",
    "inotify-tools", "mesa", "xf86-video-amdgpu", "vulkan-radeon"
  ]

  /** The values both scripts hard-code. */
  const SourceProfile: Profile :=
    Profile("/dev/nvme0n1", "dell-dc15255", "bryanr", "America/Chicago", "temporary_password", Packages)

  /** The filesystem tools `base_install.py` adds to its package list. */
  const FilesystemPackages: seq<string> := ["btrfs-progs", "xfsprogs", "f2fs-tools", "dosfstools", "e2fsprogs", "ntfs-3g"]

  const BasePackages: seq<string> := [
    "base", "linux", "linux-firmware", "amd-ucode", "base-devel", "networkmanager", "zsh", "grub",
    "efibootmgr", "os-prober", "snapper", "grub-btrfs", "mesa", "libinput"
  ] + FilesystemPackages

  /** The trace prefix `run` prints in `Install.py` and `install.py`. */
  const ExecutingPrefix: string := "--> Executing: "

  /** The trace prefix `run` prints in `base_install.py`. */
  const RunningPrefix: string := "--> [RUNNING]: "

  /** Where the chroot script is written, as seen from outside the chroot. */
  const SetupScript: string := "/mnt/setup.sh"

  const ChrootRun: Action := Sh("arch-chroot /mnt bash /setup.sh")

  /** `pacstrap -K /mnt`: the command word, the keyring flag and the target root. */
  const PacstrapWords: seq<string> := ["pacstrap", "-K", "/mnt"]
  const PacstrapPrefix: string := Join(PacstrapWords, " ")

  function PacstrapCommand(packages: seq<string>): string {
    PacstrapPrefix + " " + Join(packages, " ")
  }

  const GenfstabCommand: string := "genfstab -U /mnt >> /mnt/etc/fstab"

  /** The three stages of `setup_partitions`; `sep` and `forceSwap` as in `SetupPartitions`. */
  function PartitionPhases(disk: string, sep: string, forceSwap: bool): seq<Phase> {
    [ Phase(Partition, TableSteps(disk)),
      Phase(Format, FormatSteps(disk, sep, forceSwap)),
      Phase(Mount, SubvolumeSteps(disk, sep) + MountSteps(disk, sep)) ]
  }

  function PackagePhase(packages: seq<string>): Phase {
    Phase(InstallPackages, [Sh(PacstrapCommand(packages)), Sh(GenfstabCommand)])
  }

  function ChownHome(user: string): Action {
    Sh("arch-chroot /mnt chown -R " + user + ":" + user + " /home/" + user)
  }

  /**
   * The steps of `Install.py`'s `configure_system` around a script text:
   * write it, run it in the chroot, then set up the user's zsh files.
   */
  function UserConfiguration(script: string, user: string, zshrc: string): seq<Action> {
    [ WriteFile(SetupScript, script),
      ChrootRun,
      Sh("mkdir -p /mnt/home/" + user + "/.local/state/zsh"),
      WriteFile("/mnt/home/" + user + "/.zshrc", zshrc),
      ChownHome(user),
      RemoveFile(SetupScript) ]
  }

  /** `configure_system` of `Install.py`; `zshrc` is the user's shell configuration, kept opaque. */
  function InstallPyConfigure(p: Profile, zshrc: string): seq<Action> {
    UserConfiguration(ChrootScript.ScriptText(ChrootScript.InstallPyPayload(p.timezone, p.hostname, p.user, p.tempPassword)), p.user, zshrc)
  }

  /** The steps of `install.py`'s `configure_system` around a script text. */
  function ScriptConfiguration(script: string): seq<Action> {
    [WriteFile(SetupScript, script), ChrootRun, RemoveFile(SetupScript)]
  }

  /** `configure_system` of `install.py`; the two heredoc bodies are kept opaque. */
  function InstallPyVariantConfigure(p: Profile, zshenv: string, zshrc: string): seq<Action> {
    ScriptConfiguration(ChrootScript.ScriptText(ChrootScript.InstallPyVariantPayload(p.timezone, p.hostname, p.user, p.tempPassword, zshenv, zshrc)))
  }

  /** `configure_base` of `base_install.py`: the commands go to the chroot shell on standard input. */
  function BaseConfigure(host: string, user: string, tz: string, pw: string): seq<Action> {
    [Run(Shell("arch-chroot /mnt /bin/bash"), Some(ChrootScript.ScriptText(ChrootScript.BasePayload(host, user, tz, pw))))]
  }

  /** The `__main__` block of `Install.py`. */
  function InstallPyPhases(p: Profile, zshrc: string): seq<Phase> {
    PartitionPhases(p.disk, "p", false) + [PackagePhase(p.packages), Phase(Configure, InstallPyConfigure(p, zshrc))]
  }

  /** The `__main__` block of `install.py`. */
  function InstallPyVariantPhases(p: Profile, zshenv: string, zshrc: string): seq<Phase> {
    PartitionPhases(p.disk, "p", false) + [PackagePhase(p.packages), Phase(Configure, InstallPyVariantConfigure(p, zshenv, zshrc))]
  }

  /** The part of `base_install.py`'s `__main__` after the prompts and the disk choice. */
  function BasePhases(disk: string, host: string, user: string, tz: string, pw: string): seq<Phase> {
    PartitionPhases(disk, Separator(disk), true) + [PackagePhase(BasePackages), Phase(Configure, BaseConfigure(host, user, tz, pw))]
  }

  /** The stages every installer goes through, in order. */
  const StageOrder: seq<Stage> := [Partition, Format, Mount, InstallPackages, Configure]

  /**
   * An installer's stages laid end to end are `setup_partitions`, then
   * `pacstrap` and `genfstab`, then the configuration, and they come in the
   * order partition, format, mount, packages, configure.
   */
  lemma InstallerPlan(disk: string, sep: string, forceSwap: bool, packages: seq<string>, configure: seq<Action>)
    ensures var phases := PartitionPhases(disk, sep, forceSwap) + [PackagePhase(packages), Phase(Configure, configure)];
            && |phases| == |StageOrder|
            && (forall i :: 0 <= i < |phases| ==> phases[i].stage == StageOrder[i])
            && Flatten(phases) == SetupPartitions(disk, sep, forceSwap) + [Sh(PacstrapCommand(packages)), Sh(GenfstabCommand)] + configure
  {
    var phases := PartitionPhases(disk, sep, forceSwap) + [PackagePhase(packages), Phase(Configure, configure)];
    var t, f, m := TableSteps(disk), FormatSteps(disk, sep, forceSwap), SubvolumeSteps(disk, sep) + MountSteps(disk, sep);
    var pk := PackagePhase(packages).actions;
    assert Flatten(phases[4..]) == configure by {
      assert phases[4..][1..] == [];
    }
    assert Flatten(phases[3..]) == pk + configure by {
      assert phases[3..][1..] == phases[4..];
    }
    assert Flatten(phases[2..]) == m + (pk + configure) by {
      assert phases[2..][1..] == phases[3..];
    }
    assert Flatten(phases[1..]) == f + (m + (pk + configure)) by {
      assert phases[1..][1..] == phases[2..];
    }
    assert Flatten(phases) == t + (f + (m + (pk + configure)));
    assert t + (f + (m + (pk + configure))) == t + f + SubvolumeSteps(disk, sep) + MountSteps(disk, sep) + pk + configure;
  }

  /** With the trace on, every command an installer issues is announced by `prefix` and its text just before it. */
  lemma PipelineTraced(phases: seq<Phase>, codes: seq<seq<int>>, prefix: string)
    requires CodesFit(phases, codes)
    ensures EachCommandAnnounced(RunPhases(phases, codes, Traced(prefix)).events, prefix)
  {
    PhasesAreOnePlan(phases, codes, Traced(prefix));
    FlattenLength(phases, codes);
    var plan, all := Flatten(phases), FlattenCodes(codes);
    var o := Execute(plan, all, Traced(prefix));
    ExecuteEvents(plan, all, Traced(prefix));
    TraceAnnouncesEachCommand(plan[..Reach(o.status, |plan|)], prefix);
  }

  /** The run reports the root-partition format as the failing command. */
  lemma RootFormatFailureReported(disk: string, sep: string, forceSwap: bool, packages: seq<string>, configure: seq<Action>,
                                  codes: seq<seq<int>>, style: TraceStyle)
    requires CodesFit(PartitionPhases(disk, sep, forceSwap) + [PackagePhase(packages), Phase(Configure, configure)], codes)
    requires forall i :: 0 <= i < |codes[0]| ==> codes[0][i] == 0
    requires codes[1][0] == 0 && codes[1][1] == 0 && codes[1][2] != 0
    ensures RunPhases(PartitionPhases(disk, sep, forceSwap) + [PackagePhase(packages), Phase(Configure, configure)], codes, style).result
            == Failed(1, 2, Render(FormatBtrfs(Node(disk, sep, 3), BtrfsLabel)), codes[1][2])
  {
    var phases := PartitionPhases(disk, sep, forceSwap) + [PackagePhase(packages), Phase(Configure, configure)];
    var r := RunPhases(phases, codes, style);
    RunPhasesSpec(phases, codes, style);
    assert forall k :: !FirstFailure(phases[0].actions, codes[0], k);
    assert !AllSucceed(phases[1].actions, codes[1]);
    assert r.result.phase == 1;
    assert |phases[1].actions| == 3;
  }

  /** Up to the failing root format, the run has issued the table and the three formats. */
  lemma RootFormatFailureIssued(disk: string, sep: string, forceSwap: bool, packages: seq<string>, configure: seq<Action>,
                                codes: seq<seq<int>>, style: TraceStyle)
    requires CodesFit(PartitionPhases(disk, sep, forceSwap) + [PackagePhase(packages), Phase(Configure, configure)], codes)
    requires forall i :: 0 <= i < |codes[0]| ==> codes[0][i] == 0
    requires codes[1][0] == 0 && codes[1][1] == 0 && codes[1][2] != 0
    ensures Issued(RunPhases(PartitionPhases(disk, sep, forceSwap) + [PackagePhase(packages), Phase(Configure, configure)], codes, style).events)
            == TableSteps(disk) + FormatSteps(disk, sep, forceSwap)
  {
    var phases := PartitionPhases(disk, sep, forceSwap) + [PackagePhase(packages), Phase(Configure, configure)];
    RootFormatFailureReported(disk, sep, forceSwap, packages, configure, codes, style);
    HaltsAtFailingStage(phases, codes, style);
    var f := FormatSteps(disk, sep, forceSwap);
    assert Flatten(phases[..1]) == TableSteps(disk) by {
      assert phases[..1][1..] == [];
    }
    assert f[..3] == f;
  }

  /**
   * If the table is written and the EFI and swap formats succeed but
   * `mkfs.btrfs` on the root partition fails, the installer stops there:
   * it reports that command and its code, the machine is left partitioned,
   * and no mount or `swapon` has been issued.
   */
  lemma RootFormatFailureStops(disk: string, sep: string, forceSwap: bool, packages: seq<string>, configure: seq<Action>,
                               codes: seq<seq<int>>, style: TraceStyle)
    requires CodesFit(PartitionPhases(disk, sep, forceSwap) + [PackagePhase(packages), Phase(Configure, configure)], codes)
    requires forall i :: 0 <= i < |codes[0]| ==> codes[0][i] == 0
    requires codes[1][0] == 0 && codes[1][1] == 0 && codes[1][2] != 0
    ensures var phases := PartitionPhases(disk, sep, forceSwap) + [PackagePhase(packages), Phase(Configure, configure)];
            var r := RunPhases(phases, codes, style);
            && r.result == Failed(1, 2, Render(FormatBtrfs(Node(disk, sep, 3), BtrfsLabel)), codes[1][2])
            && Reached(phases, r.result) == Partitioned
            && Never(Issued(r.events), IsMountOrSwap)
  {
    var phases := PartitionPhases(disk, sep, forceSwap) + [PackagePhase(packages), Phase(Configure, configure)];
    var r := RunPhases(phases, codes, style);
    RootFormatFailureReported(disk, sep, forceSwap, packages, configure, codes, style);
    RootFormatFailureIssued(disk, sep, forceSwap, packages, configure, codes, style);
    NoMountsBeforeSubvolumes(disk, sep, forceSwap);
  }

  /** The script `Install.py` writes to `setup.sh` creates the profile's user. */
  lemma InstallPyScriptCreatesUser(p: Profile)
    ensures ChrootScript.Simple(ChrootScript.Useradd(p.user)) in ChrootScript.InstallPyPayload(p.timezone, p.hostname, p.user, p.tempPassword)
  {
    var parts := ChrootScript.InstallPySections(p.timezone, p.hostname, p.user, p.tempPassword);
    assert parts[1][2] == ChrootScript.Simple(ChrootScript.Useradd(p.user));
    assert parts[1][2] in parts[1];
  }

  /** The home `chown` is the fifth step of the configuration stage and no other. */
  lemma ChownPosition(script: string, user: string, zshrc: string)
    ensures forall j :: 0 <= j < |UserConfiguration(script, user, zshrc)| && UserConfiguration(script, user, zshrc)[j] == ChownHome(user) ==> j == 4
  {
    var plan := UserConfiguration(script, user, zshrc);
    assert plan[1] != ChownHome(user) by {
      assert Render(plan[1].cmd)[17] != Render(ChownHome(user).cmd)[17];
    }
    assert plan[2] != ChownHome(user) by {
      assert Render(plan[2].cmd)[0] != Render(ChownHome(user).cmd)[0];
    }
  }

  /**
   * `Install.py`'s configuration stage under any exit codes: the home
   * `chown` is issued only after the chroot run has succeeded.
   */
  lemma ChownOnlyAfterChroot(script: string, user: string, zshrc: string, codes: seq<int>, style: TraceStyle)
    requires |codes| == |UserConfiguration(script, user, zshrc)|
    ensures var issued := Issued(Execute(UserConfiguration(script, user, zshrc), codes, style).events);
            ChownHome(user) in issued ==> ChrootRun in issued && codes[1] == 0 && codes[2] == 0
  {
    var plan := UserConfiguration(script, user, zshrc);
    var o := Execute(plan, codes, style);
    ExecuteStatus(plan, codes, style);
    NothingAfterFailure(plan, codes, style);
    ChownPosition(script, user, zshrc);
    if o.status.Halted? && ChownHome(user) in plan[..o.status.at + 1] {
      var at := o.status.at;
      var j :| 0 <= j <= at && plan[..at + 1][j] == ChownHome(user);
      assert plan[j] == ChownHome(user);
      assert plan[..at][1] == plan[1] && plan[..at][2] == plan[2];
      assert plan[1] in plan[..at + 1];
    }
  }

  /** `Install.py` removes `setup.sh` exactly when every command of the configuration stage before it succeeded. */
  lemma InstallPyRemovesScriptOnSuccess(script: string, user: string, zshrc: string, codes: seq<int>, style: TraceStyle)
    requires |codes| == |UserConfiguration(script, user, zshrc)|
    ensures var issued := Issued(Execute(UserConfiguration(script, user, zshrc), codes, style).events);
            RemoveFile(SetupScript) in issued <==> codes[1] == 0 && codes[2] == 0 && codes[4] == 0
  {
    var plan := UserConfiguration(script, user, zshrc);
    var o := Execute(plan, codes, style);
    ExecuteStatus(plan, codes, style);
    NothingAfterFailure(plan, codes, style);
    if o.status.Halted? {
      var at := o.status.at;
      assert RemoveFile(SetupScript) !in plan[..at + 1];
    }
  }

  /**
   * A failed `grub-install` inside the chroot does not stop `Install.py`:
   * the chroot script goes on to the final snapshot, whose status alone is
   * the script's, so when the snapshot and the two later commands succeed
   * the installer finishes and still issues the `mkdir -p`, the `chown` and
   * the removal of `setup.sh`.
   */
  lemma GrubFailureDoesNotStopInstallPy(p: Profile, zshrc: string, codes: seq<seq<int>>, lc: seq<ChrootScript.LineCodes>,
                                        g: nat, style: TraceStyle)
    requires CodesFit(InstallPyPhases(p, zshrc), codes)
    requires forall q :: 0 <= q < 4 ==> AllSucceed(InstallPyPhases(p, zshrc)[q].actions, codes[q])
    requires |lc| == |ChrootScript.InstallPyPayload(p.timezone, p.hostname, p.user, p.tempPassword)|
    requires g < |lc| && ChrootScript.InstallPyPayload(p.timezone, p.hostname, p.user, p.tempPassword)[g] == ChrootScript.Simple(ChrootScript.InstallGrub)
    requires lc[g].first != 0 && lc[|lc| - 1].first == 0
    requires codes[4][1] == ChrootScript.RunScript(ChrootScript.InstallPyPayload(p.timezone, p.hostname, p.user, p.tempPassword), lc).status
    requires codes[4][2] == 0 && codes[4][4] == 0
    ensures var r := RunPhases(InstallPyPhases(p, zshrc), codes, style);
            && r.result.Finished?
            && Sh("mkdir -p /mnt/home/" + p.user + "/.local/state/zsh") in Issued(r.events)
            && ChownHome(p.user) in Issued(r.events)
            && RemoveFile(SetupScript) in Issued(r.events)
  {
    var phases := InstallPyPhases(p, zshrc);
    var configure := InstallPyConfigure(p, zshrc);
    ChrootScript.InstallPyExitStatus(p.timezone, p.hostname, p.user, p.tempPassword, lc);
    assert AllSucceed(phases[4].actions, codes[4]);
    RunPhasesSpec(phases, codes, style);
    IssuedPrefix(phases, codes, style);
    InstallerPlan(p.disk, "p", false, p.packages, configure);
    var before := SetupPartitions(p.disk, "p", false) + [Sh(PacstrapCommand(p.packages)), Sh(GenfstabCommand)];
    assert forall i :: 0 <= i < |configure| ==> (before + configure)[|before| + i] == configure[i];
  }

  /** `install.py` removes `setup.sh` exactly when the chroot run succeeded. */
  lemma VariantRemovesScriptOnSuccess(script: string, codes: seq<int>, style: TraceStyle)
    requires |codes| == |ScriptConfiguration(script)|
    ensures var issued := Issued(Execute(ScriptConfiguration(script), codes, style).events);
            RemoveFile(SetupScript) in issued <==> codes[1] == 0
  {
    var plan := ScriptConfiguration(script);
    var o := Execute(plan, codes, style);
    ExecuteStatus(plan, codes, style);
    NothingAfterFailure(plan, codes, style);
    if o.status.Halted? {
      assert RemoveFile(SetupScript) !in plan[..o.status.at + 1];
    }
  }

  /**
   * The `pacstrap` command line names exactly the packages of the list, in
   * order, when no package name contains a space.
   */
  lemma PacstrapPackages(packages: seq<string>)
    requires |packages| >= 1
    requires forall k :: 0 <= k < |packages| ==> ' ' !in packages[k]
    ensures Split(PacstrapCommand(packages), ' ') == PacstrapWords + packages
  {
    var words := Join(packages, " ");
    SplitUnique(words, ' ', packages);
    PacstrapPrefixWords();
    SplitAppend(PacstrapPrefix, words, ' ');
  }

  lemma PacstrapPrefixWords()
    ensures Split(PacstrapPrefix, ' ') == PacstrapWords
  {
    SplitUnique(PacstrapPrefix, ' ', PacstrapWords);
  }

  /**
   * `configure_base` writes nothing to disk: its one step is the traced
   * `arch-chroot /mnt /bin/bash`, which receives the whole script on
   * standard input, and the stage fails exactly when that shell does.
   */
  lemma BaseScriptOnStdin(host: string, user: string, tz: string, pw: string, code: int)
    ensures var plan := BaseConfigure(host, user, tz, pw);
            var o := Execute(plan, [code], Traced(RunningPrefix));
            && o.events == [ Trace(RunningPrefix + "arch-chroot /mnt /bin/bash"),
                             Issue(Run(Shell("arch-chroot /mnt /bin/bash"),
                                       Some(ChrootScript.ScriptText(ChrootScript.BasePayload(host, user, tz, pw))))) ]
            && (o.status.Completed? <==> code == 0)
            && (forall a :: a in plan ==> !a.WriteFile? && !a.AppendFile?)
  {
    var plan := BaseConfigure(host, user, tz, pw);
    assert plan[1..] == [];
  }

  /** The defaults `base_install.py` offers in its three input boxes. */
  const DefaultHostname: string := "dell-arch"
  const DefaultUser: string := "bryanr"
  const DefaultTimezone: string := "America/Chicago"

  /**
   * How `base_install.py`'s `__main__` gets past the prompts: with the
   * pipeline it goes on to run, ended by `sys.exit`, or still asking for a
   * password when the given rounds run out.
   */
  datatype Launch =
    | Launched(disk: string, host: string, user: string, tz: string, pw: string, phases: seq<Phase>)
    | Exited(status: int, message: string)
    | StillPrompting

  /**
   * The prompts, the drive detection and then the pipeline, in the order of
   * `__main__`: hostname, user and timezone boxes, the password box, the
   * NVMe-then-SATA probe.
   */
  function BaseMain(hostBox: Dialog, userBox: Dialog, tzBox: Dialog, attempts: seq<Attempt>,
                    nvme: seq<string>, sata: seq<string>): Launch
  {
    LaunchFrom(InputBox(hostBox, DefaultHostname), InputBox(userBox, DefaultUser), InputBox(tzBox, DefaultTimezone),
               PasswordBox(attempts).password, DetectDisk(nvme, sata).choice)
  }

  /** `__main__` once each prompt has produced its answer: the first exit wins. */
  function LaunchFrom(host: Answer, user: Answer, tz: Answer, pw: Option<string>, disk: DiskChoice): (l: Launch)
    ensures l.Launched? <==> host.Value? && user.Value? && tz.Value? && pw.Some? && disk.Chosen?
    ensures l.Launched? ==>
              && l.host == host.text && l.user == user.text && l.tz == tz.text && l.pw == pw.value
              && l.disk == disk.disk && l.phases == BasePhases(l.disk, l.host, l.user, l.tz, l.pw)
    ensures l.Exited? && (host.Exit? || user.Exit? || tz.Exit?) ==>
              l.status == (if host.Exit? then host.status else if user.Exit? then user.status else tz.status)
    ensures l.Exited? && host.Value? && user.Value? && tz.Value? ==> disk.NoDrive? && l == Exited(1, disk.message)
    ensures l.StillPrompting? <==> host.Value? && user.Value? && tz.Value? && pw.None?
  {
    match host
    case Exit(c) => Exited(c, "")
    case Value(h) =>
      match user
      case Exit(c) => Exited(c, "")
      case Value(u) =>
        match tz
        case Exit(c) => Exited(c, "")
        case Value(t) =>
          match pw
          case None => StillPrompting
          case Some(password) =>
            match disk
            case NoDrive(msg) => Exited(1, msg)
            case Chosen(d) => Launched(d, h, u, t, password, BasePhases(d, h, u, t, password))
  }

  /**
   * `setup_partitions` runs only after every prompt has returned: the
   * pipeline starts exactly when the three boxes answered, some round of the
   * password box was accepted and a drive was found.
   */
  lemma PromptsBeforePartitioning(hostBox: Dialog, userBox: Dialog, tzBox: Dialog, attempts: seq<Attempt>,
                                  nvme: seq<string>, sata: seq<string>)
    ensures BaseMain(hostBox, userBox, tzBox, attempts, nvme, sata).Launched? <==>
              && InputBox(hostBox, DefaultHostname).Value?
              && InputBox(userBox, DefaultUser).Value?
              && InputBox(tzBox, DefaultTimezone).Value?
              && (exists i :: 0 <= i < |attempts| && Accepted(attempts[i]))
              && (|nvme| > 0 || |sata| > 0)
  {
    var pw := PasswordBox(attempts);
    var l := LaunchFrom(InputBox(hostBox, DefaultHostname), InputBox(userBox, DefaultUser), InputBox(tzBox, DefaultTimezone),
                        pw.password, DetectDisk(nvme, sata).choice);
    assert pw.password.Some? <==> exists i :: 0 <= i < |attempts| && Accepted(attempts[i]);
  }

  /**
   * The pipeline that starts is the base pipeline for the answers given: the
   * stripped box answers, the first confirmed password (never empty) and the
   * first NVMe drive, else the first SATA drive. Otherwise the script ended
   * with status 0 from a cancelled box, or with 1 and the missing-drive message.
   */
  lemma LaunchUsesAnswers(hostBox: Dialog, userBox: Dialog, tzBox: Dialog, attempts: seq<Attempt>,
                          nvme: seq<string>, sata: seq<string>)
    ensures var l := BaseMain(hostBox, userBox, tzBox, attempts, nvme, sata);
            && (l.Launched? ==>
                  && l.host == InputBox(hostBox, DefaultHostname).text
                  && l.user == InputBox(userBox, DefaultUser).text
                  && l.tz == InputBox(tzBox, DefaultTimezone).text
                  && l.pw == PasswordBox(attempts).password.value
                  && l.pw != ""
                  && l.disk == (if |nvme| > 0 then nvme[0] else sata[0])
                  && l.phases == BasePhases(l.disk, l.host, l.user, l.tz, l.pw))
            && (l.Exited? ==> (l.status == 0 || (l.status == 1 && l.message == NoDriveMessage)))
  {
    var l := LaunchFrom(InputBox(hostBox, DefaultHostname), InputBox(userBox, DefaultUser), InputBox(tzBox, DefaultTimezone),
                        PasswordBox(attempts).password, DetectDisk(nvme, sata).choice);
  }
}
