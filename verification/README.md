# Arch Linux installer scripts: a Dafny model

This project models the four Python scripts that install and set up an Arch
Linux machine:

- `Install.py` and `install.py` are two hard-coded installers. Each one
  partitions `/dev/nvme0n1`, creates and mounts a Btrfs subvolume layout,
  runs `pacstrap` and `genfstab`, and then configures the new system by
  running a generated `setup.sh` inside `arch-chroot`.
- `base_install.py` is the interactive installer. It asks for a hostname, a
  user, a time zone and a password through whiptail, picks the first NVMe
  drive (or else the first SATA drive), and then runs the same pipeline. Its
  chroot commands go to `arch-chroot /mnt /bin/bash` on standard input.
- `setup_gui.py` runs after the first boot. It detects the user and the
  console keymap, builds `yay`, installs a desktop chosen from a menu,
  applies some XDG tweaks and enables a display manager.

The model is functional:

- **`Commands`** gives every command a structured form and its exact text
  (`Render`).
- **`Executor`** runs a plan the way consecutive calls of the fail-fast
  `run` helper do. The exit codes of the external tools are inputs, and the
  first non-zero code ends the run (`check=True`).
- **`Pipeline`** lays the stages out in order: partition, format, mount,
  packages, configure. It reports the stage that failed and the state
  reached.
- **`Partitioning`** builds the `setup_partitions` plan for a disk. It
  includes the NVMe partition-node rule of `base_install.py`.
- **`ChrootScript`** holds the configuration payloads as lines and models
  how `bash` runs them. There is no `set -e`, `a && b` runs `b` only when
  `a` succeeds, and the script's exit status is that of its last command.
- **`Installers`** assembles the three installers' plans. It also models
  the prompts and the drive detection in `__main__` of `base_install.py`.
- **`Prompts`** models `inputbox`, `passwordbox` and the drive detection.
- **`Files`** simulates the Python-level file operations: `os.makedirs`,
  `open(.., "w")`, `open(.., "a")` and `os.remove`.
- **`Gui`** models `setup_gui.py`.

`Text` holds the string helpers: Python's `strip`, `split`, `join` and
`in`. `Ordering` holds the generic "every p-step precedes every q-step"
vocabulary.

## Model

| member | source | states |
|---|---|---|
| Executor.Execute | Install.py:21-23 | a halted run names a position of the plan holding a shell command: only `run` can stop the script |
| Executor.ExecuteStatus | Install.py:21-23 | a run completes exactly when every command exits 0; otherwise it halts at the first failing command and reports that command's text and exit code, as `CalledProcessError` does |
| Executor.ExecuteEvents | install.py:21-23 | the events are the trace line and the issued step of exactly the steps up to where the run stopped, in plan order |
| Executor.ExecuteSpec | install.py:21-23 | both halves together: completion iff all succeed, first failure on a halt, and the event log of the reached prefix |
| Executor.IssuedLog | Install.py:21-23 | reading the issued steps back from a full log gives the plan itself, in order |
| Executor.NothingAfterFailure | Install.py:140-145 | a halted run has issued exactly the steps up to and including the failing command; a completed run has issued the whole plan |
| Executor.HaltsAtFirstFailure | install.py:139-144 | when position k holds the first failing command, the issued steps are exactly the first k+1 steps of the plan |
| Executor.FirstFailureUnique | Install.py:21-23 | the first failing command is unique, so the failure the run reports is well defined |
| Executor.TraceAnnouncesEachCommand | base_install.py:32-35 | with tracing on, every issued command is immediately preceded by its trace line `prefix + command` |
| Executor.ExecuteAppendHalted | Install.py:140-145 | a failure in the first of two consecutive plans ends the run there: the second plan never starts |
| Executor.ExecuteAppendCompleted | Install.py:140-145 | when the first plan completes, running both plans is running the first and then the second, with failure positions shifted |
| Pipeline.RunPhases | Install.py:140-145 | a reported failure names an existing stage and an existing step of that stage |
| Pipeline.RunPhasesSpec | Install.py:140-145 | the pipeline finishes exactly when every command of every stage succeeds; otherwise it reports the stage that holds the first failing command, every earlier stage has succeeded in full, and the text and code are those of that command |
| Pipeline.PhasesAreOnePlan | install.py:139-144 | splitting the script into stages changes nothing: the events equal one fail-fast run over the concatenated plan, and the failure position maps to that plan's offset |
| Pipeline.HaltsAtFailingStage | base_install.py:110-117 | after a failure every earlier stage succeeded in full and the failing stage did not; the issued steps are all earlier stages plus the failing stage up to the failing command |
| Pipeline.IssuedPrefix | base_install.py:110-117 | the issued steps of a failed pipeline are the earlier stages and the failing prefix; a finished pipeline has issued every stage |
| Partitioning.SectionShapes | Install.py:25-56 | the table group only partitions; the format group only formats; the subvolume group only mounts the raw root, creates subvolumes and unmounts; the mount group only creates directories, mounts and enables swap |
| Partitioning.CreateBeforeFormat | Install.py:28-36 | every partition is created before any partition is formatted |
| Partitioning.NoMountsBeforeSubvolumes | Install.py:28-36 | the table and format groups mount nothing and enable no swap |
| Partitioning.FormatBeforeMount | Install.py:34-39 | every format precedes every mount and the `swapon` |
| Partitioning.SubvolumeStepsOrder | Install.py:39-42 | within its group, the raw mount of partition 3 precedes every subvolume creation, and every creation precedes `umount /mnt` |
| Partitioning.OutsideSubvolumeGroup | install.py:25-55 | no step outside the subvolume group mounts the raw root, creates a subvolume or unmounts `/mnt` |
| Partitioning.SubvolumesCreatedWhileRawMounted | install.py:39-42 | in the whole plan, the subvolumes are created after the raw root is mounted and before it is unmounted |
| Partitioning.UnmountBeforeRootSubvolume | Install.py:42-46 | the raw root is unmounted before `@` is mounted on `/mnt` |
| Partitioning.MountStepsOrder | Install.py:46-54 | within the mount group, `@` is mounted first, then the mountpoints are created, then the children are mounted |
| Partitioning.NoLayeredMountsBefore | Install.py:28-42 | nothing before the mount group mounts `@`, creates a mountpoint or mounts below `/mnt` |
| Partitioning.RootThenDirsThenChildren | install.py:46-55 | in the whole plan, the `@` mount precedes the directory creation, which precedes every mount below `/mnt` (the children and `/boot`) |
| Partitioning.SwapSignedBeforeEnabled | Install.py:35-56 | `mkswap` precedes `swapon` |
| Partitioning.MountStepsDirs | Install.py:46-55 | in the mount group, the `@` mount and the mountpoint creations mount nothing below `/mnt`, and every later mount below `/mnt` targets a directory those creations made |
| Partitioning.MountpointsCreatedFirst | base_install.py:56-64 | every mount below `/mnt` finds its mountpoint created by an earlier `os.makedirs` |
| Partitioning.ChildMountsUnderRoot | Install.py:48-55 | every mount other than `@` targets `/mnt/<d>` for one of the created directories `home`, `var/log`, `var/cache/pacman/pkg`, `.snapshots`, `boot` |
| Partitioning.SubvolumeGroupCreates | Install.py:40-41 | the subvolume group creates each of `@`, `@home`, `@log`, `@pkg`, `@snapshots` directly under `/mnt`, and nothing else |
| Partitioning.MountGroupMountsAll | Install.py:46-54 | each of the five subvolumes is mounted by the mount group |
| Partitioning.MountGroupMountsOnly | Install.py:45-54 | every subvolume mount uses a created subvolume, partition 3 and the one option string `noatime,compress=zstd,commit=120` |
| Partitioning.SubvolumeMountsOnlyInMountGroup | Install.py:39-54 | no step before the mount group mounts a subvolume |
| Partitioning.CreatedSubvolumes | install.py:39-42 | across the whole plan, the subvolumes created are exactly the five, each under `/mnt` |
| Partitioning.CreatedSubvolumesAreMounted | install.py:45-53 | across the whole plan, every created subvolume is mounted, and every subvolume mount uses a created subvolume, the root partition and the shared options |
| Partitioning.TypeCodesMatchRoles | Install.py:29-31 | partitions 1, 2 and 3 carry the type codes for EFI (`ef00`), swap (`8200`) and Linux (`8300`), each code used for its role only |
| Partitioning.StepsUseRoleNodes | install.py:34-55 | vfat goes on the EFI node, `mkswap` and `swapon` on the swap node, Btrfs with label `ARCH` on the root node; every mount uses the root node except `/boot`, which uses the EFI node |
| Partitioning.NodesDistinct | base_install.py:46-48 | the nodes of partitions with different numbers are different device paths, for any numbers |
| Text.NatToStringInjective | base_install.py:46-48 | different partition numbers have different decimal texts |
| Partitioning.SeparatorIff | base_install.py:45 | the separator is `p` if and only if `nvme` occurs in the disk path, and empty otherwise |
| Partitioning.SeparatorExamples | base_install.py:45-48 | partition 3 of `/dev/nvme0n1` is `/dev/nvme0n1p3`, and partition 1 of `/dev/sda` is `/dev/sda1` |
| Partitioning.TableText | Install.py:28-31 | the table group is `sgdisk -Z` and then three creates for partitions 1, 2, 3 with sizes `+1G`, `+8G`, `0` and codes `ef00`, `8200`, `8300`, in that order |
| Partitioning.FormatText | Install.py:34-36 | the format lines for any separator: vfat on partition 1, `mkswap` on 2 (with `-f` exactly when forced), Btrfs labelled `ARCH` on 3 |
| Partitioning.BaseFormatText | base_install.py:45-48 | for a disk without `nvme` in its name, `base_install.py` formats `<disk>1`, `<disk>2` with `mkswap -f`, and `<disk>3` |
| Partitioning.SubvolumeText | Install.py:39-42 | the subvolume group has seven lines: mount p3 on `/mnt`; for the i-th of `@`, `@home`, `@log`, `@pkg`, `@snapshots`, the line `btrfs subvolume create /mnt/<name>`; then `umount /mnt` |
| Partitioning.SubvolumeCreatesExactly | Install.py:40-41 | the loop creates every name of `@`, `@home`, `@log`, `@pkg`, `@snapshots` under `/mnt`, and every creation it issues is one of them |
| Partitioning.MountText | Install.py:46-56 | the mount group has twelve steps; the `@` mount line with the shared options, the `/boot` mount of p1 and `swapon` of p2 |
| Partitioning.ChildMountText | Install.py:51-54 | the i-th child mount line is `mount -o subvol=<sv>,noatime,compress=zstd,commit=120 <disk>p3 /mnt/<dir>` for the pairs `@home`/`home`, `@log`/`var/log`, `@pkg`/`var/cache/pacman/pkg`, `@snapshots`/`.snapshots` |
| ChrootScript.InstallPyUserGroup | Install.py:69-73 | `useradd` appears in the users group of the payload and in no other group |
| ChrootScript.InstallPyInitramfsGroup | Install.py:84-87 | `mkinitcpio -p linux` appears in the initcpio group only |
| ChrootScript.InstallPySnapperGroup | Install.py:89-94 | `snapper create-config` appears in the snapper group only |
| ChrootScript.InstallPyGrubGroup | Install.py:96-98 | `grub-install` appears in the bootloader group only |
| ChrootScript.InstallPySnapshotGroup | Install.py:106-107 | the baseline `snapper create` appears in the final group only |
| ChrootScript.InstallPyOrder | Install.py:71-107 | in the payload, `useradd` precedes `mkinitcpio`, which precedes `snapper create-config`, which precedes `grub-install`, which precedes the baseline snapshot |
| ChrootScript.VariantUserGroup | install.py:104-110 | `useradd` appears in the skeleton-and-users group only |
| ChrootScript.VariantInitramfsGroup | install.py:112-116 | `mkinitcpio` appears in the hardware group only |
| ChrootScript.VariantCacheGroup | install.py:118-119 | `pacman -Sc` appears in the cleanup group only |
| ChrootScript.VariantSnapperGroup | install.py:120-124 | the snapper reset lines appear in the snapper group only |
| ChrootScript.VariantGrubGroup | install.py:126-128 | the two GRUB commands appear in the GRUB group only |
| ChrootScript.VariantServicesGroup | install.py:131 | `systemctl enable` appears in the services group only |
| ChrootScript.VariantSnapshotGroup | install.py:132 | the final snapshot appears in the last group only |
| ChrootScript.InstallPyVariantOrder | install.py:108-132 | `useradd` precedes `mkinitcpio`, which precedes `pacman -Sc`, which precedes the snapper reset, which precedes GRUB, which precedes the service enable, which precedes the final snapshot |
| ChrootScript.BaseUserGroup | base_install.py:76-78 | `useradd` appears in the user group only |
| ChrootScript.BaseInitramfsGroup | base_install.py:79-81 | `mkinitcpio` appears in the initcpio group only |
| ChrootScript.BaseOsProberGroup | base_install.py:82 | the `GRUB_DISABLE_OS_PROBER=false` append appears in its own group only |
| ChrootScript.BaseGrubInstallGroup | base_install.py:83 | `grub-install` appears in its own group only |
| ChrootScript.BaseGrubConfigGroup | base_install.py:84 | `grub-mkconfig` appears in its own group only |
| ChrootScript.BaseOrder | base_install.py:76-84 | `useradd` precedes `mkinitcpio`, and the OS-prober append precedes both `grub-install` and `grub-mkconfig` |
| ChrootScript.RunAppend | Install.py:111 | running two blocks of lines back to back is running their concatenation; the status the first leaves is the one the second starts from |
| ChrootScript.EveryLineRuns | Install.py:111 | without `set -e`, every plain command and every first command of `&&` runs, whatever the exit codes |
| ChrootScript.ExitStatusIsLastCommand | install.py:136 | the script's exit status is the status of the last command that ran |
| ChrootScript.SnapperResetGuards | install.py:120-124 | `rm -rf /.snapshots` follows the `umount` exactly when the `umount` succeeded, `mkdir /.snapshots` runs exactly when the second `rm -rf` succeeded, and `create-config` runs either way |
| ChrootScript.InstallPyExitStatus | Install.py:107-111 | the last line of `Install.py`'s chroot script is the baseline snapshot, and the run exits with that command's status alone |
| Installers.GrubFailureDoesNotStopInstallPy | Install.py:97-138 | when `grub-install` fails inside the chroot but the final snapshot succeeds, the chroot run reports success, so the installer still finishes and issues the `mkdir -p`, the `chown` and the removal of `setup.sh` |
| ChrootScript.InstallPyVariantExitStatus | install.py:132-136 | the last line of `install.py`'s chroot script is its final snapshot, and the run exits with that command's status alone |
| ChrootScript.BaseExitStatus | base_install.py:85-87 | the last command fed to the chroot shell of `base_install.py` is `systemctl enable`, and the shell exits with its status alone |
| Installers.InstallerPlan | Install.py:140-145 | an installer has five stages in the order partition, format, mount, packages, configure; laid end to end they are `setup_partitions`, then `pacstrap`, then `genfstab`, then the configuration steps |
| Installers.PipelineTraced | Install.py:21-23 | with tracing on, every command any installer issues is announced with its trace line immediately before it |
| Installers.RootFormatFailureReported | Install.py:34-36 | when the table and the first two formats succeed but `mkfs.btrfs` fails, the run reports step 3 of the format stage, with that command's text and code |
| Installers.RootFormatFailureIssued | Install.py:34-36 | in that case exactly the table commands and the three formats have been issued |
| Installers.RootFormatFailureStops | Install.py:36-46 | in that case the machine is left partitioned, and no mount and no `swapon` has been issued |
| Installers.InstallPyScriptCreatesUser | Install.py:71 | the script `Install.py` writes to `setup.sh` runs `useradd` for the configured user |
| Installers.ChownOnlyAfterChroot | Install.py:111-137 | under any exit codes, the home `chown` is issued only after the chroot run and the `mkdir -p` of the history directory both succeeded |
| Installers.InstallPyRemovesScriptOnSuccess | Install.py:109-138 | `Install.py` removes `setup.sh` exactly when the chroot run, the `mkdir -p` and the `chown` all succeeded |
| Installers.VariantRemovesScriptOnSuccess | install.py:134-137 | `install.py` removes `setup.sh` exactly when the chroot run succeeded |
| Installers.PacstrapPackages | Install.py:143 | the `pacstrap` line splits into `pacstrap`, `-K`, `/mnt` followed by exactly the package list, in order, when no package name has a space |
| Installers.BaseScriptOnStdin | base_install.py:87 | `configure_base` writes no file: it traces and issues `arch-chroot /mnt /bin/bash` with the whole script as standard input, and the stage fails exactly when that shell does |
| Installers.LaunchFrom | base_install.py:93-110 | the pipeline starts exactly when the three boxes gave values, a password was returned and a drive was chosen, and it is the base pipeline for those values; the first exit wins, and a missing drive ends with status 1 and its message |
| Installers.PromptsBeforePartitioning | base_install.py:93-110 | `setup_partitions` starts exactly when the three input boxes answered, some password round was accepted, and an NVMe or SATA drive exists |
| Installers.LaunchUsesAnswers | base_install.py:93-117 | the pipeline that starts uses the box answers, the first confirmed password (never empty) and the first NVMe drive, or else the first SATA drive; any other end of the script is status 0 from a cancelled box, or status 1 with the missing-drive message |
| Prompts.InputBox | base_install.py:7-17 | a non-zero whiptail status exits with status 0; otherwise the answer is the stripped output, with no surrounding whitespace; when whiptail raises, the answer is the typed text, or the default if nothing was typed |
| Prompts.InputBoxTrims | base_install.py:14 | the accepted answer is a slice of whiptail's output with only whitespace cut from either end |
| Prompts.InputBoxFallbackNonEmpty | base_install.py:15-17 | with a non-empty default, the fallback never yields an empty answer |
| Prompts.PasswordBox | base_install.py:19-30 | a password is returned exactly when some round is accepted. It comes from the first accepted round, equals both stripped answers and is not empty, and every earlier round was rejected with one error message each |
| Prompts.DetectDisk | base_install.py:99-107 | the NVMe pattern is probed first; the SATA pattern is probed exactly when there is no NVMe drive; the script exits with the critical-error message exactly when both lists are empty; otherwise the first NVMe drive is chosen, or else the first SATA drive |
| Prompts.ChosenIsCandidate | base_install.py:99-107 | a chosen disk is one of the reported candidates, and an NVMe one whenever one exists |
| Text.Strip | base_install.py:14 | `strip()` is never longer than its input, and its result is empty or starts and ends with a non-space character |
| Text.StripSlice | base_install.py:14 | `strip()` gives a slice of its input, and everything cut from either end is whitespace |
| Text.Split | setup_gui.py:65 | `split` gives at least one piece; no piece contains the separator; there is exactly one piece when the separator does not occur; the first piece is the text before the first separator |
| Text.SplitAppend | setup_gui.py:65 | splitting `a + sep + b` gives the pieces of `a` followed by the pieces of `b` |
| Text.JoinSplit | Install.py:143 | joining the pieces of a split with the separator gives back the original string |
| Files.Simulate | setup_gui.py:7-27 | a step that raises stops the script at a position inside the plan, and that step is a Python file operation, never a `run` command |
| Files.AppendKeepsContents | setup_gui.py:26-27 | an append succeeds exactly when the parent directory exists and the path is not a directory. It leaves the old contents as a prefix followed by the new text, and changes no directory and no other file. A `"w"` write replaces the contents instead |
| Files.MakeDirsIdempotent | Install.py:48-49 | `os.makedirs(.., exist_ok=True)` succeeds exactly when the path is non-empty and neither it nor any ancestor is a file (otherwise `FileExistsError` or `NotADirectoryError`); it then creates the path and all its ancestors, leaves files alone, and a second call changes nothing |
| Files.SimulateAppendErr | setup_gui.py:7-27 | once a file operation raises, nothing after it runs: the result of a longer plan is that same error |
| Files.SimulateCommands | setup_gui.py:7-27 | `run` commands leave the modelled files and directories unchanged |
| Gui.DetectUser | setup_gui.py:60 | the user is the login name unless that is `root`; then it is `SUDO_USER`, or `user` when that is unset; the result is `root` only when `SUDO_USER` is `root` |
| Gui.DetectLayoutFailsIff | setup_gui.py:61-65 | reading `/etc/vconsole.conf` fails exactly when the file exists and some line mentions `KEYMAP` without `=`, with the `IndexError` |
| Gui.LayoutFailsIff | setup_gui.py:64-65 | the keymap loop raises exactly when some line mentions `KEYMAP` but has no `=`, and the error is the `IndexError` of `split('=')[1]` |
| Gui.LayoutDefault | setup_gui.py:61-65 | with no line mentioning `KEYMAP`, the layout stays `us` |
| Gui.LastKeymapLineWins | setup_gui.py:64-65 | when the loop succeeds, the last line mentioning `KEYMAP` decides the layout: the stripped text between its first and second `=` |
| Gui.DetectLayoutDefaults | setup_gui.py:61-65 | an absent `/etc/vconsole.conf`, or one without a `KEYMAP` line, gives `us` |
| Gui.UtilsWords | setup_gui.py:71 | the `utils` string names exactly the seven utility packages |
| Gui.AppsWords | setup_gui.py:72 | the `apps` string names exactly the eight application packages |
| Gui.YayPackages | setup_gui.py:74-81 | the `yay -S` line splits into `yay -S --noconfirm`, the `envs` entry's packages (the word `None` for a key not in `envs`), all utilities and all applications |
| Gui.XdgAppendFailsAsWritten | setup_gui.py:20-27 | as written, when `~/.config/zsh` does not exist, `configure_xdg_apps` always raises, at its third step (the append) when both `makedirs` calls succeed: neither creates that directory |
| Gui.XdgStepsAppend | setup_gui.py:19-27 | appending to `~/.zshrc`, the file the comment names, `configure_xdg_apps` succeeds exactly when neither directory is blocked by a file and `~/.zshrc` is not a directory, and the zshrc then holds its old contents followed by the XDG exports |
| Gui.GuiSetup | setup_gui.py:59-98 | the script fails, with the `IndexError`, exactly when `/etc/vconsole.conf` has a `KEYMAP` line without `=`; otherwise its plan starts with the yay build and the `yay -S` install, appends to `~/.config/zsh/.zshrc` at step 5, enables gdm exactly for `1` and sddm otherwise, and ends with the two clean-up steps after the display manager. For `3`, steps 6-9 generate the Hyprland entry, create `<home>/.config/hypr`, append the Hyprland settings for the detected keymap to `<home>/.config/hypr/hyprland.conf`, and enable sddm; for other choices step 6 enables the display manager |
| Gui.GuiPlanFacts | setup_gui.py:67-98 | for a known user and layout the as-written plan has the yay steps first, the XDG append at step 5, the display manager of the choice (after the Hyprland entry, directory and keymap settings at steps 6-8 for `3`) and the two clean-up steps last |
| Gui.BranchPositions | setup_gui.py:29-52 | in the branch for `3`, `configure_uwsm_hyprland` generates the entry, creates `~/.config/hypr` and appends the settings for the given layout to `hyprland.conf`, right before sddm is enabled |
| Gui.InstallStepsNoDm | setup_gui.py:68-85 | no step before the display-manager branch enables a display manager, sets up Hyprland or is a final step |
| Gui.HyprlandBeforeSddm | setup_gui.py:87-89 | for choice `3`, the Hyprland entry is generated before the display manager is enabled |
| Gui.BranchDecidesDm | setup_gui.py:87-93 | within surrounding steps that take no part, the branch alone decides: gdm for `1`, sddm otherwise, never both, and Hyprland exactly for `3` |
| Gui.DisplayManagerChoice | setup_gui.py:87-93 | in the whole plan, gdm is enabled exactly for `1` and sddm exactly for every other choice; Hyprland is set up exactly for `3`, and then before sddm |
| Gui.BranchEnablesDm | setup_gui.py:87-93 | every branch enables some display manager |
| Gui.DmThenFinalSteps | setup_gui.py:93-98 | the two final steps appended after a display-manager enable both come after it |
| Gui.FinalStepsAfterDm | setup_gui.py:87-98 | `xdg-user-dirs-update` and `rm -rf /tmp/yay` are the last two steps, and both come after the display manager is enabled, whichever one it is |
| Gui.GuiPlanStart | setup_gui.py:68-81 | the script first builds yay and then runs the `yay -S` install for the choice |
| Gui.FailedInstallStopsGui | setup_gui.py:68-81 | a failing `yay -S` stops the script: only the yay build and the failed install have been issued |
| Gui.AppendPosition | setup_gui.py:68-85 | in the plan as written, the append of `configure_xdg_apps` is step 5, and no step up to it enables a display manager or is a clean-up step |
| Gui.CorrectedGuiPlanContinues | setup_gui.py:84-98 | with the corrected `configure_xdg_apps`, neither directory blocked by a file and `~/.zshrc` not a directory, the whole script gets past the XDG steps: for choices other than `3` no file operation raises, and for `3` only the Hyprland `makedirs` or append (steps 7 and 8) can |
| Gui.BranchRaisesOnlyInHyprland | setup_gui.py:87-98 | after `configure_xdg_apps`, only the Hyprland `makedirs` and append can raise, and only for `3` |
| Gui.XdgFailureStopsGui | setup_gui.py:19-27 | as written, when `~/.config/zsh` does not exist, the whole script raises at step 5 at the latest (at step 5 exactly when both `makedirs` calls succeed), before any display manager is enabled and before the clean-up steps |

## Left out

- Process execution, `subprocess` and the external tools (`sgdisk`,
  `mkfs`, `mount`, `pacstrap`, `genfstab`, `arch-chroot`, `grub`,
  `snapper`, `yay`, `systemctl`). Each is a command with its exact text
  and an exit code supplied as input. What they do to the disk is not
  modelled.
- Whiptail, `input()` and terminal output. Prompt results are inputs
  (`Prompts.Dialog`, `Prompts.Attempt`). The `print` banners outside `run`
  are not modelled, and neither are `os.environ['TERM']` or the
  `UI Error` message.
- `glob`: the two candidate lists are inputs, in whatever order the OS
  gives them.
- `os.getlogin()`, `SUDO_USER` and the `~` expansion in `setup_gui.py`.
  They are inputs (`login`, `sudoUser`, `home`).
- The contents of the installers' dotfiles and configuration text: the
  zshrc of `Install.py`, the zshenv and zshrc heredocs of `install.py`,
  and the zram and mkinitcpio `sed` lines. These are opaque strings or
  `Other` lines; only their position matters, and Python's brace and
  backslash escaping inside them is not modelled. The two texts of
  `setup_gui.py` are modelled verbatim, with the escapes resolved as
  Python resolves them: the XDG exports (`Gui.XdgExports`) and the
  Hyprland settings around the detected layout (`Gui.HyprSettings`).
- The yay `git clone`, `makepkg` and package downloads (network).
- Prompts.PasswordBox: Python loops forever until a round is accepted.
  The model takes a finite list of rounds and returns `None` when they run
  out, which `Installers.BaseMain` reports as `StillPrompting`.
- Files.Apply: permissions, owners, and the effect of external commands
  (for example `mkdir -p` run through `run`) are not tracked. Only
  directories created by `os.makedirs` and file contents are.
- Executor.Execute: the Python-level steps (`os.makedirs`, `open`,
  `os.remove`) never raise in the executor; only `Files.Simulate` models
  their failures. So `Pipeline.RunPhasesSpec`'s "finishes exactly when
  every command succeeds" speaks of the `run` commands only, and a raising
  file operation is covered by `Files.Simulate` and
  `Gui.XdgFailureStopsGui` instead.
- The chroot shell. The code runs the script with `bash` and no
  `set -e`, so every line runs. Only an `&&`
  guards its second command, and the exit status the outer `run` sees is
  that of the last command. The model follows the code
  (`ChrootScript.EveryLineRuns`, `ChrootScript.InstallPyExitStatus`).

## Findings

| source | as written | input that shows it | evidently intended | confidence | as-written member | corrected member |
|---|---|---|---|---|---|---|
| setup_gui.py:20-27 | `configure_xdg_apps` opens `~/.config/zsh/.zshrc` for appending after creating only `~/.config/discord` and `~/.local/share/vscode/extensions`. No installer creates `~/.config/zsh`: `Install.py` writes `~/.zshrc`, and `install.py` puts only `.config`, `.cache`, `.local/share` and `.local/state/zsh` into `/etc/skel`. The comment claims the file was "created in the base script". | any user whose `~/.config/zsh` does not exist, e.g. right after `install.py`; the append raises `FileNotFoundError` and the script stops before the display manager is enabled (`Gui.XdgAppendFailsAsWritten`) | append to `~/.zshrc` (`Gui.XdgStepsAppend`), the user's zshrc that the comment says the base script created; zsh reads it because no installer sets `ZDOTDIR`. The setup then continues past the XDG steps to the display manager (`Gui.CorrectedGuiPlanContinues`). (Creating `~/.config/zsh` and setting `ZDOTDIR` would be another reading; the model takes the one the comment names.) | medium, not executed | Gui.XdgFailureStopsGui | Gui.CorrectedGuiPlanContinues |
