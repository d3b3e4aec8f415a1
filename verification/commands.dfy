/**
 * The commands the installers hand to the shell through `run`, and the
 * other side effects (`os.makedirs`, file writes, `os.remove`) interleaved
 * with them. Each command is kept structured, and `Render` gives the exact
 * command line the scripts build with their f-strings.
 */
module Commands {
  import opened Wrappers
  import opened Text

  /** One shell command line issued through `run`. */
  datatype Cmd =
    | ZapTable(disk: string)                                    // wipe the GPT and MBR structures
    | NewPartition(disk: string, number: nat, size: string, typeCode: string)
    | FormatVfat(node: string)                                  // FAT32 for the EFI partition
    | MakeSwap(node: string, force: bool)                       // swap signature
    | FormatBtrfs(node: string, fsLabel: string)
    | MountDevice(node: string, target: string)                 // plain mount, no options
    | MountSubvolume(subvol: string, options: string, node: string, target: string)
    | CreateSubvolume(path: string)
    | Unmount(target: string)
    | SwapOn(node: string)
    | Shell(text: string)                                       // any other command, kept verbatim

  /** The command line as the installer's f-string spells it. */
  function Render(c: Cmd): string {
    match c
    case ZapTable(disk) => "sgdisk -Z " + disk
    case NewPartition(disk, number, size, typeCode) =>
      var n := NatToString(number);
      "sgdisk -n " + n + ":0:" + size + " -t " + n + ":" + typeCode + " " + disk
    case FormatVfat(node) => "mkfs.vfat -F32 " + node
    case MakeSwap(node, force) => (if force then "mkswap -f " else "mkswap ") + node
    case FormatBtrfs(node, fsLabel) => "mkfs.btrfs -f -L " + fsLabel + " " + node
    case MountDevice(node, target) => "mount " + node + " " + target
    case MountSubvolume(subvol, options, node, target) =>
      "mount -o subvol=" + subvol + "," + options + " " + node + " " + target
    case CreateSubvolume(path) => "btrfs subvolume create " + path
    case Unmount(target) => "umount " + target
    case SwapOn(node) => "swapon " + node
    case Shell(text) => text
  }

  /**
   * One step of an installer. Only `Run` goes through the fail-fast `run`
   * helper; the others are direct Python calls.
   */
  datatype Action =
    | Run(cmd: Cmd, stdin: Option<string>)   // `run(cmd)` or `run(cmd, input_data=...)`
    | MakeDirs(path: string)                  // `os.makedirs(path, exist_ok=True)`
    | WriteFile(path: string, data: string)   // `open(path, "w").write(data)`
    | AppendFile(path: string, data: string)  // `open(path, "a").write(data)`
    | RemoveFile(path: string)                // `os.remove(path)`

  /** `run(text)` without standard input. */
  function Sh(text: string): Action {
    Run(Shell(text), None)
  }
}
