/**
 * `setup_partitions`: the fixed GPT layout, the partition-node naming rule,
 * the Btrfs subvolume layout and the mount plan, as the ordered list of
 * steps the installers issue for a target disk.
 */
module Partitioning {
  import opened Wrappers
  import opened Text
  import opened Commands
  import opened Ordering

  datatype Role = Efi | SwapSpace | Root

  /** One row of the partition table: `sgdisk -n <number>:0:<size> -t <number>:<typeCode>`. */
  datatype PartitionSpec = PartitionSpec(number: nat, size: string, typeCode: string, role: Role)

  /** 1 GiB EFI system partition, 8 GiB swap, and the rest of the disk (size `0`) for Linux. */
  const Layout: seq<PartitionSpec> := [
    PartitionSpec(1, "+1G", "ef00", Efi),
    PartitionSpec(2, "+8G", "8200", SwapSpace),
    PartitionSpec(3, "0", "8300", Root)
  ]

  /** The subvolumes created on the fresh Btrfs filesystem, in creation order. */
  const Subvolumes: seq<string> := ["@", "@home", "@log", "@pkg", "@snapshots"]

  /** The mountpoint directories created under `/mnt` once `@` is mounted there. */
  const MountDirs: seq<string> := ["home", "var/log", "var/cache/pacman/pkg", ".snapshots", "boot"]

  /** The child subvolumes and the directory below `/mnt` each is mounted on, in mount order. */
  const ChildMounts: seq<(string, string)> := [
    ("@home", "home"),
    ("@log", "var/log"),
    ("@pkg", "var/cache/pacman/pkg"),
    ("@snapshots", ".snapshots")
  ]

  /** The one option string every Btrfs subvolume mount uses. */
  const MountOptions: string := "noatime,compress=zstd,commit=120"

  /** The mount root of the target system. */
  const MountRoot: string := "/mnt"

  const BtrfsLabel: string := "ARCH"

  /** The partition-node separator of `base_install.py`: `p` exactly for NVMe-style names. */
  function Separator(disk: string): string {
    if Contains(disk, "nvme") then "p" else ""
  }

  /** The device node of partition `n` of `disk`. */
  function Node(disk: string, sep: string, n: nat): string {
    disk + sep + NatToString(n)
  }

  function R(c: Cmd): Action {
    Run(c, None)
  }

  /** Clear the table, then create the three partitions of `Layout` in order. */
  function TableSteps(disk: string): seq<Action> {
    [R(ZapTable(disk))]
    + seq(|Layout|, i requires 0 <= i < |Layout| =>
        R(NewPartition(disk, Layout[i].number, Layout[i].size, Layout[i].typeCode)))
  }

  /** Format each partition with the filesystem of its role. */
  function FormatSteps(disk: string, sep: string, forceSwap: bool): seq<Action> {
    [ R(FormatVfat(Node(disk, sep, 1))),
      R(MakeSwap(Node(disk, sep, 2), forceSwap)),
      R(FormatBtrfs(Node(disk, sep, 3), BtrfsLabel)) ]
  }

  /** `mount <root node> /mnt`: the top level of the fresh Btrfs filesystem. */
  function RawRootMount(disk: string, sep: string): Action {
    R(MountDevice(Node(disk, sep, 3), MountRoot))
  }

  /** The `for sv in [...]` loop: one `btrfs subvolume create /mnt/<sv>` per subvolume. */
  function SubvolumeCreates(): seq<Action> {
    seq(|Subvolumes|, i requires 0 <= i < |Subvolumes| => R(CreateSubvolume(MountRoot + "/" + Subvolumes[i])))
  }

  const RootUnmount: Action := R(Unmount(MountRoot))

  /** Mount the raw Btrfs root, create every subvolume in it, unmount it again. */
  function SubvolumeSteps(disk: string, sep: string): seq<Action> {
    [RawRootMount(disk, sep)] + SubvolumeCreates() + [RootUnmount]
  }

  /** `@` mounted on `/mnt` with the shared options. */
  function RootSubvolumeMount(disk: string, sep: string): Action {
    R(MountSubvolume("@", MountOptions, Node(disk, sep, 3), MountRoot))
  }

  /** The `for d in [...]` loop: `os.makedirs(f"/mnt/{d}", exist_ok=True)` per mountpoint. */
  function Mountpoints(): seq<Action> {
    seq(|MountDirs|, i requires 0 <= i < |MountDirs| => MakeDirs(MountRoot + "/" + MountDirs[i]))
  }

  /** The four child subvolume mounts, in the order of `ChildMounts`. */
  function ChildSubvolumeMounts(disk: string, sep: string): seq<Action> {
    seq(|ChildMounts|, i requires 0 <= i < |ChildMounts| =>
      R(MountSubvolume(ChildMounts[i].0, MountOptions, Node(disk, sep, 3), MountRoot + "/" + ChildMounts[i].1)))
  }

  /** Partition 1 on `/mnt/boot`, then `swapon` of partition 2. */
  function BootAndSwap(disk: string, sep: string): seq<Action> {
    [R(MountDevice(Node(disk, sep, 1), MountRoot + "/" + "boot")), R(SwapOn(Node(disk, sep, 2)))]
  }

  /** Mount `@`, create the mountpoints, mount the children, `/boot`, and enable swap. */
  function MountSteps(disk: string, sep: string): seq<Action> {
    [RootSubvolumeMount(disk, sep)] + Mountpoints() + (ChildSubvolumeMounts(disk, sep) + BootAndSwap(disk, sep))
  }

  /**
   * Every step of `setup_partitions`, in order. `sep` is the node separator
   * (`"p"` in `Install.py` and `install.py`, `Separator(disk)` in
   * `base_install.py`); `forceSwap` is `base_install.py`'s `mkswap -f`.
   */
  function SetupPartitions(disk: string, sep: string, forceSwap: bool): seq<Action> {
    TableSteps(disk) + FormatSteps(disk, sep, forceSwap) + SubvolumeSteps(disk, sep) + MountSteps(disk, sep)
  }

  // Step classifiers used by the order lemmas.

  predicate IsPartitioning(a: Action) { a.Run? && (a.cmd.ZapTable? || a.cmd.NewPartition?) }
  predicate IsFormat(a: Action) { a.Run? && (a.cmd.FormatVfat? || a.cmd.MakeSwap? || a.cmd.FormatBtrfs?) }
  predicate IsMkswap(a: Action) { a.Run? && a.cmd.MakeSwap? }
  predicate IsSwapOn(a: Action) { a.Run? && a.cmd.SwapOn? }
  predicate IsMount(a: Action) { a.Run? && (a.cmd.MountDevice? || a.cmd.MountSubvolume?) }
  predicate IsMountOrSwap(a: Action) { IsMount(a) || IsSwapOn(a) }
  predicate IsRawRootMount(a: Action) { a.Run? && a.cmd.MountDevice? && a.cmd.target == MountRoot }
  predicate IsSubvolumeCreate(a: Action) { a.Run? && a.cmd.CreateSubvolume? }
  predicate IsRootUnmount(a: Action) { a.Run? && a.cmd == Unmount(MountRoot) }
  predicate IsRootSubvolumeMount(a: Action) { a.Run? && a.cmd.MountSubvolume? && a.cmd.subvol == "@" && a.cmd.target == MountRoot }
  predicate IsChildMount(a: Action) { IsMount(a) && a.cmd.target != MountRoot }
  predicate IsMakeDirs(a: Action) { a.MakeDirs? }
  predicate IsSubvolumeMount(a: Action) { a.Run? && a.cmd.MountSubvolume? }

  lemma TableShape(disk: string)
    ensures forall a :: a in TableSteps(disk) ==> IsPartitioning(a)
  {
  }

  lemma FormatShape(disk: string, sep: string, forceSwap: bool)
    ensures forall a :: a in FormatSteps(disk, sep, forceSwap) ==> IsFormat(a)
  {
  }

  /** A directory below `/mnt` is not `/mnt` itself. */
  lemma BelowRoot(d: string)
    ensures MountRoot + "/" + d != MountRoot
  {
    assert |MountRoot + "/" + d| != |MountRoot|;
  }

  lemma SubvolumeCreatesShape()
    ensures forall a :: a in SubvolumeCreates() ==> IsSubvolumeCreate(a)
  {
  }

  lemma MountpointsShape()
    ensures forall a :: a in Mountpoints() ==> IsMakeDirs(a)
  {
  }

  /** The child mounts are subvolume mounts of the root partition below `/mnt`. */
  lemma ChildSubvolumeMountsShape(disk: string, sep: string)
    ensures forall a :: a in ChildSubvolumeMounts(disk, sep) ==>
              IsSubvolumeMount(a) && a.cmd.target != MountRoot && a.cmd.node == Node(disk, sep, 3)
  {
    var c := ChildSubvolumeMounts(disk, sep);
    forall i | 0 <= i < |c| ensures c[i].cmd.target != MountRoot {
      BelowRoot(ChildMounts[i].1);
    }
  }

  /** The steps of the mount group after the mountpoints: children, `/boot`, swap. */
  lemma LaterMountsShape(disk: string, sep: string)
    ensures forall a :: a in ChildSubvolumeMounts(disk, sep) + BootAndSwap(disk, sep) ==>
              a.Run? && (IsChildMount(a) || IsSwapOn(a))
  {
    ChildSubvolumeMountsShape(disk, sep);
    BelowRoot("boot");
    InEither(ChildSubvolumeMounts(disk, sep), BootAndSwap(disk, sep));
  }

  lemma SubvolumeShape(disk: string, sep: string)
    ensures forall a :: a in SubvolumeSteps(disk, sep) ==>
              a.Run? && (a.cmd == MountDevice(Node(disk, sep, 3), MountRoot) || a.cmd.CreateSubvolume? || a.cmd == Unmount(MountRoot))
  {
    SubvolumeCreatesShape();
    InEither([RawRootMount(disk, sep)], SubvolumeCreates());
    InEither([RawRootMount(disk, sep)] + SubvolumeCreates(), [RootUnmount]);
  }

  lemma MountShape(disk: string, sep: string)
    ensures forall a :: a in MountSteps(disk, sep) ==>
              a.MakeDirs? || (a.Run? && (IsRootSubvolumeMount(a) || IsChildMount(a) || IsSwapOn(a)))
  {
    var later := ChildSubvolumeMounts(disk, sep) + BootAndSwap(disk, sep);
    MountpointsShape();
    LaterMountsShape(disk, sep);
    InEither([RootSubvolumeMount(disk, sep)], Mountpoints());
    InEither([RootSubvolumeMount(disk, sep)] + Mountpoints(), later);
  }

  /** What each group of steps consists of. */
  lemma SectionShapes(disk: string, sep: string, forceSwap: bool)
    ensures forall a :: a in TableSteps(disk) ==> IsPartitioning(a)
    ensures forall a :: a in FormatSteps(disk, sep, forceSwap) ==> IsFormat(a)
    ensures forall a :: a in SubvolumeSteps(disk, sep) ==>
              a.Run? && (a.cmd == MountDevice(Node(disk, sep, 3), MountRoot) || a.cmd.CreateSubvolume? || a.cmd == Unmount(MountRoot))
    ensures forall a :: a in MountSteps(disk, sep) ==>
              a.MakeDirs? || (a.Run? && (a.cmd.MountSubvolume? || a.cmd.MountDevice? || a.cmd.SwapOn?))
  {
    TableShape(disk);
    FormatShape(disk, sep, forceSwap);
    SubvolumeShape(disk, sep);
    MountShape(disk, sep);
  }

  /** Membership in a plan made of two parts. */
  lemma InEither<T>(x: seq<T>, y: seq<T>)
    ensures forall a :: a in x + y <==> a in x || a in y
  {
  }

  /** Nothing after the table group partitions. */
  lemma NoPartitioningAfterTable(disk: string, sep: string, forceSwap: bool)
    ensures Never(FormatSteps(disk, sep, forceSwap) + (SubvolumeSteps(disk, sep) + MountSteps(disk, sep)), IsPartitioning)
  {
    FormatShape(disk, sep, forceSwap);
    SubvolumeShape(disk, sep);
    MountShape(disk, sep);
    InEither(FormatSteps(disk, sep, forceSwap), SubvolumeSteps(disk, sep) + MountSteps(disk, sep));
    InEither(SubvolumeSteps(disk, sep), MountSteps(disk, sep));
  }

  /** Every partition is created before any is formatted. */
  lemma CreateBeforeFormat(disk: string, sep: string, forceSwap: bool)
    ensures Precedes(SetupPartitions(disk, sep, forceSwap), IsPartitioning, IsFormat)
  {
    var t, f, s, m := TableSteps(disk), FormatSteps(disk, sep, forceSwap), SubvolumeSteps(disk, sep), MountSteps(disk, sep);
    TableShape(disk);
    NoPartitioningAfterTable(disk, sep, forceSwap);
    assert t[0] in t && f[0] in f + (s + m) && IsFormat(f[0]);
    Regroup(t, f, s, m);
    PrecedesAppend(t, f + (s + m), IsPartitioning, IsFormat);
  }

  /** Neither the table nor the format group mounts anything or enables swap. */
  lemma NoMountsBeforeSubvolumes(disk: string, sep: string, forceSwap: bool)
    ensures Never(TableSteps(disk) + FormatSteps(disk, sep, forceSwap), IsMountOrSwap)
  {
    TableShape(disk);
    FormatShape(disk, sep, forceSwap);
    InEither(TableSteps(disk), FormatSteps(disk, sep, forceSwap));
  }

  /** Nothing after the format group formats. */
  lemma NoFormatAfterFormatGroup(disk: string, sep: string)
    ensures Never(SubvolumeSteps(disk, sep) + MountSteps(disk, sep), IsFormat)
  {
    SubvolumeShape(disk, sep);
    MountShape(disk, sep);
    InEither(SubvolumeSteps(disk, sep), MountSteps(disk, sep));
  }

  /** Every format precedes every mount and `swapon`. */
  lemma FormatBeforeMount(disk: string, sep: string, forceSwap: bool)
    ensures Precedes(SetupPartitions(disk, sep, forceSwap), IsFormat, IsMountOrSwap)
  {
    var t, f, s, m := TableSteps(disk), FormatSteps(disk, sep, forceSwap), SubvolumeSteps(disk, sep), MountSteps(disk, sep);
    NoMountsBeforeSubvolumes(disk, sep, forceSwap);
    NoFormatAfterFormatGroup(disk, sep);
    InEither(t, f);
    InEither(s, m);
    assert f[0] in t + f && IsFormat(f[0]);
    assert s[0] in s + m && IsMountOrSwap(s[0]);
    Regroup(t, f, s, m);
    PrecedesAppend(t + f, s + m, IsFormat, IsMountOrSwap);
  }

  /** Within the subvolume group: raw mount, then the creations, then `umount /mnt`. */
  lemma SubvolumeStepsOrder(disk: string, sep: string)
    ensures Precedes(SubvolumeSteps(disk, sep), IsRawRootMount, IsSubvolumeCreate)
    ensures Precedes(SubvolumeSteps(disk, sep), IsSubvolumeCreate, IsRootUnmount)
  {
    var raw, creates, um := [RawRootMount(disk, sep)], SubvolumeCreates(), [RootUnmount];
    SubvolumeCreatesShape();
    InEither(raw, creates);
    InEither(creates, um);
    assert raw[0] in raw && um[0] in um;
    assert creates[0] in creates + um && creates[0] in raw + creates;
    PrecedesAppend(raw, creates + um, IsRawRootMount, IsSubvolumeCreate);
    assert raw + (creates + um) == raw + creates + um;
    PrecedesAppend(raw + creates, um, IsSubvolumeCreate, IsRootUnmount);
  }

  /** The groups around the subvolume group neither mount the raw root, create subvolumes nor unmount `/mnt`. */
  lemma OutsideSubvolumeGroup(disk: string, sep: string, forceSwap: bool)
    ensures Never(TableSteps(disk) + FormatSteps(disk, sep, forceSwap), IsRawRootMount)
    ensures Never(TableSteps(disk) + FormatSteps(disk, sep, forceSwap), IsSubvolumeCreate)
    ensures Never(TableSteps(disk) + FormatSteps(disk, sep, forceSwap), IsRootUnmount)
    ensures Never(MountSteps(disk, sep), IsRawRootMount)
    ensures Never(MountSteps(disk, sep), IsSubvolumeCreate)
    ensures Never(MountSteps(disk, sep), IsRootUnmount)
  {
    NoMountsBeforeSubvolumes(disk, sep, forceSwap);
    TableShape(disk);
    FormatShape(disk, sep, forceSwap);
    InEither(TableSteps(disk), FormatSteps(disk, sep, forceSwap));
    MountShape(disk, sep);
  }

  /** The raw root mount comes before every subvolume creation, and they all precede the `umount /mnt`. */
  lemma SubvolumesCreatedWhileRawMounted(disk: string, sep: string, forceSwap: bool)
    ensures Precedes(SetupPartitions(disk, sep, forceSwap), IsRawRootMount, IsSubvolumeCreate)
    ensures Precedes(SetupPartitions(disk, sep, forceSwap), IsSubvolumeCreate, IsRootUnmount)
  {
    var t, f, s, m := TableSteps(disk), FormatSteps(disk, sep, forceSwap), SubvolumeSteps(disk, sep), MountSteps(disk, sep);
    SubvolumeStepsOrder(disk, sep);
    OutsideSubvolumeGroup(disk, sep, forceSwap);
    PrecedesFrame(t + f, s, m, IsRawRootMount, IsSubvolumeCreate);
    PrecedesFrame(t + f, s, m, IsSubvolumeCreate, IsRootUnmount);
  }

  /** The raw root is unmounted before `@` is mounted in its place. */
  lemma UnmountBeforeRootSubvolume(disk: string, sep: string, forceSwap: bool)
    ensures Precedes(SetupPartitions(disk, sep, forceSwap), IsRootUnmount, IsRootSubvolumeMount)
  {
    var t, f, s, m := TableSteps(disk), FormatSteps(disk, sep, forceSwap), SubvolumeSteps(disk, sep), MountSteps(disk, sep);
    OutsideSubvolumeGroup(disk, sep, forceSwap);
    NoLayeredMountsBefore(disk, sep, forceSwap);
    InEither(t + f, s);
    InEither([RootSubvolumeMount(disk, sep)] + Mountpoints(), ChildSubvolumeMounts(disk, sep) + BootAndSwap(disk, sep));
    assert RootUnmount in s && IsRootUnmount(RootUnmount);
    assert RootSubvolumeMount(disk, sep) in m;
    PrecedesAppend(t + f + s, m, IsRootUnmount, IsRootSubvolumeMount);
  }

  /** In the mount group, `@` is mounted before any mountpoint is created. */
  lemma RootBeforeMountpoints(disk: string, sep: string)
    ensures Precedes(MountSteps(disk, sep), IsRootSubvolumeMount, IsMakeDirs)
  {
    var root, dirs, later := [RootSubvolumeMount(disk, sep)], Mountpoints(), ChildSubvolumeMounts(disk, sep) + BootAndSwap(disk, sep);
    MountpointsShape();
    LaterMountsShape(disk, sep);
    InEither(dirs, later);
    assert root[0] in root;
    assert dirs[0] in dirs + later;
    PrecedesAppend(root, dirs + later, IsRootSubvolumeMount, IsMakeDirs);
    assert root + (dirs + later) == root + dirs + later;
  }

  /** In the mount group, every mountpoint is created before anything is mounted below `/mnt`. */
  lemma MountpointsBeforeChildren(disk: string, sep: string)
    ensures Precedes(MountSteps(disk, sep), IsMakeDirs, IsChildMount)
  {
    var root, dirs, later := [RootSubvolumeMount(disk, sep)], Mountpoints(), ChildSubvolumeMounts(disk, sep) + BootAndSwap(disk, sep);
    MountpointsShape();
    LaterMountsShape(disk, sep);
    InEither(root, dirs);
    assert dirs[0] in root + dirs;
    assert later[0] in later && IsChildMount(later[0]);
    PrecedesAppend(root + dirs, later, IsMakeDirs, IsChildMount);
  }

  /** Within the final mount group: `@` first, then the mountpoints, then the child mounts. */
  lemma MountStepsOrder(disk: string, sep: string)
    ensures Precedes(MountSteps(disk, sep), IsRootSubvolumeMount, IsMakeDirs)
    ensures Precedes(MountSteps(disk, sep), IsMakeDirs, IsChildMount)
  {
    RootBeforeMountpoints(disk, sep);
    MountpointsBeforeChildren(disk, sep);
  }

  /** Every step before the final mount group runs a command, mounts no subvolume, and mounts devices only on `/mnt`. */
  lemma EarlyStepsShape(disk: string, sep: string, forceSwap: bool)
    ensures forall a :: a in TableSteps(disk) + FormatSteps(disk, sep, forceSwap) + SubvolumeSteps(disk, sep) ==>
              a.Run? && !a.cmd.MountSubvolume? && (a.cmd.MountDevice? ==> a.cmd.target == MountRoot)
  {
    var t, f, s := TableSteps(disk), FormatSteps(disk, sep, forceSwap), SubvolumeSteps(disk, sep);
    TableShape(disk);
    FormatShape(disk, sep, forceSwap);
    SubvolumeShape(disk, sep);
    InEither(t, f);
    InEither(t + f, s);
  }

  /** Nothing before the final mount group mounts a subvolume, creates a mountpoint or mounts below `/mnt`. */
  lemma NoLayeredMountsBefore(disk: string, sep: string, forceSwap: bool)
    ensures Never(TableSteps(disk) + FormatSteps(disk, sep, forceSwap) + SubvolumeSteps(disk, sep), IsRootSubvolumeMount)
    ensures Never(TableSteps(disk) + FormatSteps(disk, sep, forceSwap) + SubvolumeSteps(disk, sep), IsMakeDirs)
    ensures Never(TableSteps(disk) + FormatSteps(disk, sep, forceSwap) + SubvolumeSteps(disk, sep), IsChildMount)
  {
    EarlyStepsShape(disk, sep, forceSwap);
  }

  /** `@` is mounted at `/mnt` first, then the mountpoints are created, then the children are mounted. */
  lemma RootThenDirsThenChildren(disk: string, sep: string, forceSwap: bool)
    ensures Precedes(SetupPartitions(disk, sep, forceSwap), IsRootSubvolumeMount, IsMakeDirs)
    ensures Precedes(SetupPartitions(disk, sep, forceSwap), IsMakeDirs, IsChildMount)
    ensures Precedes(SetupPartitions(disk, sep, forceSwap), IsRootSubvolumeMount, IsChildMount)
  {
    var pre, m := TableSteps(disk) + FormatSteps(disk, sep, forceSwap) + SubvolumeSteps(disk, sep), MountSteps(disk, sep);
    MountStepsOrder(disk, sep);
    NoLayeredMountsBefore(disk, sep, forceSwap);
    assert pre + m + [] == SetupPartitions(disk, sep, forceSwap);
    PrecedesFrame(pre, m, [], IsRootSubvolumeMount, IsMakeDirs);
    PrecedesFrame(pre, m, [], IsMakeDirs, IsChildMount);
    PrecedesTrans(pre + m + [], IsRootSubvolumeMount, IsMakeDirs, IsChildMount);
  }

  /** `mkswap` on the swap partition precedes `swapon`. */
  lemma SwapSignedBeforeEnabled(disk: string, sep: string, forceSwap: bool)
    ensures Precedes(SetupPartitions(disk, sep, forceSwap), IsMkswap, IsSwapOn)
  {
    var t, f, s, m := TableSteps(disk), FormatSteps(disk, sep, forceSwap), SubvolumeSteps(disk, sep), MountSteps(disk, sep);
    var later := ChildSubvolumeMounts(disk, sep) + BootAndSwap(disk, sep);
    NoMountsBeforeSubvolumes(disk, sep, forceSwap);
    NoFormatAfterFormatGroup(disk, sep);
    InEither(t, f);
    InEither(s, m);
    InEither([RootSubvolumeMount(disk, sep)] + Mountpoints(), later);
    InEither(ChildSubvolumeMounts(disk, sep), BootAndSwap(disk, sep));
    assert f[1] in t + f && IsMkswap(f[1]);
    assert BootAndSwap(disk, sep)[1] in m;
    Regroup(t, f, s, m);
    PrecedesAppend(t + f, s + m, IsMkswap, IsSwapOn);
  }

  /** Every mount below `/mnt` finds its mountpoint already created by an earlier step. */
  ghost predicate MountpointsReady(plan: seq<Action>) {
    forall j :: 0 <= j < |plan| && IsChildMount(plan[j]) ==> MakeDirs(plan[j].cmd.target) in plan[..j]
  }

  lemma MountpointsReadyAppend(head: seq<Action>, tail: seq<Action>)
    requires Never(head, IsChildMount)
    requires forall a :: a in tail && IsChildMount(a) ==> MakeDirs(a.cmd.target) in head
    ensures MountpointsReady(head + tail)
  {
    var plan := head + tail;
    forall j | 0 <= j < |plan| && IsChildMount(plan[j])
      ensures MakeDirs(plan[j].cmd.target) in plan[..j]
    {
      assert j >= |head| && plan[j] == tail[j - |head|];
      assert plan[..j] == head + tail[..j - |head|];
    }
  }

  /** In the final mount group, the `@` mount and the mountpoints come first and create every mountpoint the later steps mount on. */
  lemma MountStepsDirs(disk: string, sep: string)
    ensures Never([RootSubvolumeMount(disk, sep)] + Mountpoints(), IsChildMount)
    ensures forall a :: a in ChildSubvolumeMounts(disk, sep) + BootAndSwap(disk, sep) && IsChildMount(a) ==>
              MakeDirs(a.cmd.target) in Mountpoints()
  {
    var c := ChildSubvolumeMounts(disk, sep);
    MountpointsShape();
    InEither([RootSubvolumeMount(disk, sep)], Mountpoints());
    forall i | 0 <= i < |c| ensures MakeDirs(c[i].cmd.target) in Mountpoints() {
      assert ChildMounts[i].1 == MountDirs[i];
      assert Mountpoints()[i] == MakeDirs(MountRoot + "/" + MountDirs[i]);
    }
    assert Mountpoints()[4] == MakeDirs(MountRoot + "/" + "boot");
    InEither(c, BootAndSwap(disk, sep));
  }

  /** Every mount below `/mnt` finds its mountpoint created by an earlier step. */
  lemma MountpointsCreatedFirst(disk: string, sep: string, forceSwap: bool)
    ensures MountpointsReady(SetupPartitions(disk, sep, forceSwap))
  {
    var pre := TableSteps(disk) + FormatSteps(disk, sep, forceSwap) + SubvolumeSteps(disk, sep);
    var first, later := [RootSubvolumeMount(disk, sep)] + Mountpoints(), ChildSubvolumeMounts(disk, sep) + BootAndSwap(disk, sep);
    NoLayeredMountsBefore(disk, sep, forceSwap);
    MountStepsDirs(disk, sep);
    InEither(pre, first);
    InEither([RootSubvolumeMount(disk, sep)], Mountpoints());
    MountpointsReadyAppend(pre + first, later);
    assert pre + first + later == pre + MountSteps(disk, sep);
  }

  /** The child mounts target `/mnt/<d>` for the mountpoint directories of `MountDirs`, in order. */
  lemma ChildMountTargets(disk: string, sep: string)
    ensures forall i :: 0 <= i < |ChildMounts| ==>
              ChildSubvolumeMounts(disk, sep)[i].cmd.target == MountRoot + "/" + MountDirs[i]
  {
    forall i | 0 <= i < |ChildMounts| ensures ChildMounts[i].1 == MountDirs[i] {
    }
  }

  /**
   * Every mount other than `@` on `/mnt` (the child subvolumes and `/boot`)
   * targets `/mnt/<d>` for one of the mountpoint directories of `MountDirs`.
   */
  lemma ChildMountsUnderRoot(disk: string, sep: string, forceSwap: bool)
    ensures forall a :: a in SetupPartitions(disk, sep, forceSwap) && IsChildMount(a) ==>
              exists d :: d in MountDirs && a.cmd.target == MountRoot + "/" + d
  {
    var pre := TableSteps(disk) + FormatSteps(disk, sep, forceSwap) + SubvolumeSteps(disk, sep);
    var c := ChildSubvolumeMounts(disk, sep);
    NoLayeredMountsBefore(disk, sep, forceSwap);
    MountpointsShape();
    ChildMountTargets(disk, sep);
    forall a | a in c ensures exists d :: d in MountDirs && a.cmd.target == MountRoot + "/" + d {
      var i :| 0 <= i < |c| && c[i] == a;
      assert MountDirs[i] in MountDirs;
    }
    assert MountDirs[4] in MountDirs;
    InEither(pre, MountSteps(disk, sep));
    InEither([RootSubvolumeMount(disk, sep)], Mountpoints());
    InEither([RootSubvolumeMount(disk, sep)] + Mountpoints(), c + BootAndSwap(disk, sep));
    InEither(c, BootAndSwap(disk, sep));
  }

  /** The `for sv in [...]` loop creates exactly the subvolumes of `Subvolumes`, each directly under `/mnt`. */
  lemma SubvolumeCreatesExactly()
    ensures forall sv :: sv in Subvolumes ==> R(CreateSubvolume(MountRoot + "/" + sv)) in SubvolumeCreates()
    ensures forall a :: a in SubvolumeCreates() ==> exists sv :: sv in Subvolumes && a == R(CreateSubvolume(MountRoot + "/" + sv))
  {
    forall sv | sv in Subvolumes ensures R(CreateSubvolume(MountRoot + "/" + sv)) in SubvolumeCreates() {
      var i :| 0 <= i < |Subvolumes| && Subvolumes[i] == sv;
      assert SubvolumeCreates()[i] == R(CreateSubvolume(MountRoot + "/" + sv));
    }
    forall a | a in SubvolumeCreates() ensures exists sv :: sv in Subvolumes && a == R(CreateSubvolume(MountRoot + "/" + sv)) {
      var i :| 0 <= i < |SubvolumeCreates()| && SubvolumeCreates()[i] == a;
      assert Subvolumes[i] in Subvolumes;
    }
  }

  /** The subvolume group creates exactly the subvolumes of `Subvolumes`, each directly under `/mnt`. */
  lemma SubvolumeGroupCreates(disk: string, sep: string)
    ensures forall sv :: sv in Subvolumes ==> R(CreateSubvolume(MountRoot + "/" + sv)) in SubvolumeSteps(disk, sep)
    ensures forall a :: a in SubvolumeSteps(disk, sep) && IsSubvolumeCreate(a) ==>
              exists sv :: sv in Subvolumes && a.cmd.path == MountRoot + "/" + sv
  {
    SubvolumeCreatesExactly();
    InEither([RawRootMount(disk, sep)], SubvolumeCreates());
    InEither([RawRootMount(disk, sep)] + SubvolumeCreates(), [RootUnmount]);
  }

  /** The mount group mounts every subvolume of `Subvolumes`. */
  lemma MountGroupMountsAll(disk: string, sep: string)
    ensures forall sv :: sv in Subvolumes ==> exists a :: a in MountSteps(disk, sep) && IsSubvolumeMount(a) && a.cmd.subvol == sv
  {
    var c := ChildSubvolumeMounts(disk, sep);
    InEither([RootSubvolumeMount(disk, sep)], Mountpoints());
    InEither([RootSubvolumeMount(disk, sep)] + Mountpoints(), c + BootAndSwap(disk, sep));
    InEither(c, BootAndSwap(disk, sep));
    forall sv | sv in Subvolumes
      ensures exists a :: a in MountSteps(disk, sep) && IsSubvolumeMount(a) && a.cmd.subvol == sv
    {
      var i :| 0 <= i < |Subvolumes| && Subvolumes[i] == sv;
      if i == 0 {
        assert RootSubvolumeMount(disk, sep) in MountSteps(disk, sep);
      } else {
        assert ChildMounts[i - 1].0 == sv;
        assert c[i - 1] in MountSteps(disk, sep);
      }
    }
  }

  /** Every child mount uses one of `Subvolumes` other than `@`, with the shared options. */
  lemma ChildMountSubvolumes(disk: string, sep: string)
    ensures forall a :: a in ChildSubvolumeMounts(disk, sep) ==> a.cmd.subvol in Subvolumes && a.cmd.options == MountOptions
  {
    var c := ChildSubvolumeMounts(disk, sep);
    forall i | 0 <= i < |c| ensures c[i].cmd.subvol in Subvolumes {
      assert ChildMounts[i].0 == Subvolumes[i + 1];
    }
  }

  /** Every subvolume mount of the mount group uses a created subvolume, the root partition and the shared options. */
  lemma MountGroupMountsOnly(disk: string, sep: string)
    ensures forall a :: a in MountSteps(disk, sep) && IsSubvolumeMount(a) ==>
              a.cmd.subvol in Subvolumes && a.cmd.options == MountOptions && a.cmd.node == Node(disk, sep, 3)
  {
    var c := ChildSubvolumeMounts(disk, sep);
    ChildSubvolumeMountsShape(disk, sep);
    ChildMountSubvolumes(disk, sep);
    MountpointsShape();
    assert Subvolumes[0] == "@";
    InEither([RootSubvolumeMount(disk, sep)], Mountpoints());
    InEither([RootSubvolumeMount(disk, sep)] + Mountpoints(), c + BootAndSwap(disk, sep));
    InEither(c, BootAndSwap(disk, sep));
  }

  /** Only the mount group mounts subvolumes. */
  lemma SubvolumeMountsOnlyInMountGroup(disk: string, sep: string, forceSwap: bool)
    ensures Never(TableSteps(disk) + FormatSteps(disk, sep, forceSwap) + SubvolumeSteps(disk, sep), IsSubvolumeMount)
  {
    NoLayeredMountsBefore(disk, sep, forceSwap);
    SubvolumeShape(disk, sep);
    InEither(TableSteps(disk) + FormatSteps(disk, sep, forceSwap), SubvolumeSteps(disk, sep));
  }

  /** The subvolumes created are exactly the five of `Subvolumes`, each directly under `/mnt`. */
  lemma CreatedSubvolumes(disk: string, sep: string, forceSwap: bool)
    ensures forall sv :: sv in Subvolumes ==> R(CreateSubvolume(MountRoot + "/" + sv)) in SetupPartitions(disk, sep, forceSwap)
    ensures forall a :: a in SetupPartitions(disk, sep, forceSwap) && IsSubvolumeCreate(a) ==>
              exists sv :: sv in Subvolumes && a.cmd.path == MountRoot + "/" + sv
  {
    var t, f, s, m := TableSteps(disk), FormatSteps(disk, sep, forceSwap), SubvolumeSteps(disk, sep), MountSteps(disk, sep);
    SubvolumeGroupCreates(disk, sep);
    OutsideSubvolumeGroup(disk, sep, forceSwap);
    InEither(t + f, s);
    InEither(t + f + s, m);
  }

  /**
   * Every created subvolume is mounted, and every subvolume mount uses one
   * of the created subvolumes, the root partition and the shared options.
   */
  lemma CreatedSubvolumesAreMounted(disk: string, sep: string, forceSwap: bool)
    ensures forall sv :: sv in Subvolumes ==>
              exists a :: a in SetupPartitions(disk, sep, forceSwap) && IsSubvolumeMount(a) && a.cmd.subvol == sv
    ensures forall a :: a in SetupPartitions(disk, sep, forceSwap) && IsSubvolumeMount(a) ==>
              a.cmd.subvol in Subvolumes && a.cmd.options == MountOptions && a.cmd.node == Node(disk, sep, 3)
  {
    var pre, m := TableSteps(disk) + FormatSteps(disk, sep, forceSwap) + SubvolumeSteps(disk, sep), MountSteps(disk, sep);
    MountGroupMountsAll(disk, sep);
    MountGroupMountsOnly(disk, sep);
    SubvolumeMountsOnlyInMountGroup(disk, sep, forceSwap);
    InEither(pre, m);
  }

  /** `node` is the device node of the partition that `Layout` gives role `role`. */
  ghost predicate RoleNode(disk: string, sep: string, role: Role, node: string) {
    exists k :: 0 <= k < |Layout| && Layout[k].role == role && node == Node(disk, sep, Layout[k].number)
  }

  /** Each partition's GPT type code is the one its role needs: EFI system, Linux swap, Linux filesystem. */
  lemma TypeCodesMatchRoles()
    ensures forall k :: 0 <= k < |Layout| ==>
              (Layout[k].role == Efi <==> Layout[k].typeCode == "ef00") &&
              (Layout[k].role == SwapSpace <==> Layout[k].typeCode == "8200") &&
              (Layout[k].role == Root <==> Layout[k].typeCode == "8300")
    ensures forall k :: 0 <= k < |Layout| ==> Layout[k].number == k + 1
  {
  }

  /** Distinct directories below `/mnt` are distinct paths. */
  lemma BelowRootInjective(x: string, y: string)
    requires x != y
    ensures MountRoot + "/" + x != MountRoot + "/" + y
  {
    var n := |MountRoot + "/"|;
    assert (MountRoot + "/" + x)[n..] == x;
    assert (MountRoot + "/" + y)[n..] == y;
  }

  /** In the mount group, `/mnt/boot` gets partition 1, every other mount partition 3, and `swapon` partition 2. */
  lemma MountGroupNodes(disk: string, sep: string)
    ensures forall a :: a in MountSteps(disk, sep) && IsMount(a) ==>
              a.cmd.node == (if a.cmd.target == MountRoot + "/" + "boot" then Node(disk, sep, 1) else Node(disk, sep, 3))
    ensures forall a :: a in MountSteps(disk, sep) && IsSwapOn(a) ==> a.cmd.node == Node(disk, sep, 2)
  {
    var c := ChildSubvolumeMounts(disk, sep);
    ChildSubvolumeMountsShape(disk, sep);
    forall i | 0 <= i < |c| ensures c[i].cmd.target != MountRoot + "/" + "boot" {
      BelowRootInjective(ChildMounts[i].1, "boot");
    }
    BelowRoot("boot");
    MountpointsShape();
    InEither([RootSubvolumeMount(disk, sep)], Mountpoints());
    InEither([RootSubvolumeMount(disk, sep)] + Mountpoints(), c + BootAndSwap(disk, sep));
    InEither(c, BootAndSwap(disk, sep));
  }

  /** Partitions 1, 2 and 3 are the EFI, swap and root partitions of `Layout`. */
  lemma RoleNodes(disk: string, sep: string)
    ensures RoleNode(disk, sep, Efi, Node(disk, sep, 1))
    ensures RoleNode(disk, sep, SwapSpace, Node(disk, sep, 2))
    ensures RoleNode(disk, sep, Root, Node(disk, sep, 3))
  {
    assert Layout[0].role == Efi && Layout[1].role == SwapSpace && Layout[2].role == Root;
  }

  /** The format group puts each filesystem on the partition of its role. */
  lemma FormatRoleNodes(disk: string, sep: string, forceSwap: bool)
    ensures forall a :: a in FormatSteps(disk, sep, forceSwap) && a.cmd.FormatVfat? ==> RoleNode(disk, sep, Efi, a.cmd.node)
    ensures forall a :: a in FormatSteps(disk, sep, forceSwap) && a.cmd.MakeSwap? ==>
              RoleNode(disk, sep, SwapSpace, a.cmd.node) && a.cmd.force == forceSwap
    ensures forall a :: a in FormatSteps(disk, sep, forceSwap) && a.cmd.FormatBtrfs? ==>
              RoleNode(disk, sep, Root, a.cmd.node) && a.cmd.fsLabel == BtrfsLabel
  {
    RoleNodes(disk, sep);
  }

  /** Every mount uses the root partition except the one on `/mnt/boot`, and `swapon` uses the swap partition. */
  lemma MountRoleNodes(disk: string, sep: string)
    ensures forall a :: a in SubvolumeSteps(disk, sep) + MountSteps(disk, sep) && IsMount(a) ==>
              RoleNode(disk, sep, if a.cmd.target == MountRoot + "/" + "boot" then Efi else Root, a.cmd.node)
    ensures forall a :: a in MountSteps(disk, sep) && IsSwapOn(a) ==> RoleNode(disk, sep, SwapSpace, a.cmd.node)
  {
    RoleNodes(disk, sep);
    SubvolumeShape(disk, sep);
    BelowRoot("boot");
    MountGroupNodes(disk, sep);
    InEither(SubvolumeSteps(disk, sep), MountSteps(disk, sep));
  }

  /** Each format, mount and `swapon` targets the partition whose role it serves. */
  lemma StepsUseRoleNodes(disk: string, sep: string, forceSwap: bool)
    ensures forall a :: a in FormatSteps(disk, sep, forceSwap) && a.cmd.FormatVfat? ==> RoleNode(disk, sep, Efi, a.cmd.node)
    ensures forall a :: a in FormatSteps(disk, sep, forceSwap) && a.cmd.MakeSwap? ==>
              RoleNode(disk, sep, SwapSpace, a.cmd.node) && a.cmd.force == forceSwap
    ensures forall a :: a in FormatSteps(disk, sep, forceSwap) && a.cmd.FormatBtrfs? ==>
              RoleNode(disk, sep, Root, a.cmd.node) && a.cmd.fsLabel == BtrfsLabel
    ensures forall a :: a in SubvolumeSteps(disk, sep) + MountSteps(disk, sep) && IsMount(a) ==>
              RoleNode(disk, sep, if a.cmd.target == MountRoot + "/" + "boot" then Efi else Root, a.cmd.node)
    ensures forall a :: a in MountSteps(disk, sep) && IsSwapOn(a) ==> RoleNode(disk, sep, SwapSpace, a.cmd.node)
  {
    FormatRoleNodes(disk, sep, forceSwap);
    MountRoleNodes(disk, sep);
  }

  /** Partition nodes with different numbers are different device nodes. */
  lemma NodesDistinct(disk: string, sep: string, m: nat, n: nat)
    requires m != n
    ensures Node(disk, sep, m) != Node(disk, sep, n)
  {
    var a, b := Node(disk, sep, m), Node(disk, sep, n);
    NatToStringInjective(m, n);
    var k := |disk + sep|;
    assert a[k..] == NatToString(m) && b[k..] == NatToString(n);
  }

  /** `base_install.py` inserts `p` exactly when `nvme` occurs somewhere in the disk name. */
  lemma SeparatorIff(disk: string)
    ensures Separator(disk) == "p" <==> exists i :: OccursAt(disk, "nvme", i)
    ensures Separator(disk) == "" <==> !exists i :: OccursAt(disk, "nvme", i)
  {
    ContainsIff(disk, "nvme");
  }

  /** The partition node for an NVMe disk. */
  lemma NvmeExample()
    ensures Node("/dev/nvme0n1", Separator("/dev/nvme0n1"), 3) == "/dev/nvme0n1p3"
  {
    assert OccursAt("/dev/nvme0n1", "nvme", 5);
    SeparatorIff("/dev/nvme0n1");
  }

  /** The partition node for a SATA disk. */
  lemma SataExample()
    ensures Node("/dev/sda", Separator("/dev/sda"), 1) == "/dev/sda1"
  {
    if Contains("/dev/sda", "nvme") {
      ContainsFirstChar("/dev/sda", "nvme");
      assert false;
    }
  }

  /** The partition nodes for an NVMe disk and for a SATA disk. */
  lemma SeparatorExamples()
    ensures Node("/dev/nvme0n1", Separator("/dev/nvme0n1"), 3) == "/dev/nvme0n1p3"
    ensures Node("/dev/sda", Separator("/dev/sda"), 1) == "/dev/sda1"
  {
    NvmeExample();
    SataExample();
  }

  /** The `sgdisk -n` lines up to the disk, for the three rows of `Layout`. */
  lemma PartitionPrefixes()
    ensures "sgdisk -n " + "1" + ":0:" + "+1G" + " -t " + "1" + ":" + "ef00" + " " == "sgdisk -n 1:0:+1G -t 1:ef00 "
    ensures "sgdisk -n " + "2" + ":0:" + "+8G" + " -t " + "2" + ":" + "8200" + " " == "sgdisk -n 2:0:+8G -t 2:8200 "
    ensures "sgdisk -n " + "3" + ":0:" + "0" + " -t " + "3" + ":" + "8300" + " " == "sgdisk -n 3:0:0 -t 3:8300 "
  {
  }

  /** The command lines of the table group, as the installers spell them for a disk. */
  lemma TableText(disk: string)
    ensures |TableSteps(disk)| == 4
    ensures Render(TableSteps(disk)[0].cmd) == "sgdisk -Z " + disk
    ensures Render(TableSteps(disk)[1].cmd) == "sgdisk -n 1:0:+1G -t 1:ef00 " + disk
    ensures Render(TableSteps(disk)[2].cmd) == "sgdisk -n 2:0:+8G -t 2:8200 " + disk
    ensures Render(TableSteps(disk)[3].cmd) == "sgdisk -n 3:0:0 -t 3:8300 " + disk
  {
    assert NatToString(1) == "1" && NatToString(2) == "2" && NatToString(3) == "3";
    PartitionPrefixes();
  }

  /**
   * The command lines of the format group for any separator: `mkswap`
   * carries `-f` exactly when `forceSwap` is set, as in `base_install.py`,
   * and not in `Install.py`.
   */
  lemma FormatText(disk: string, sep: string, forceSwap: bool)
    ensures |FormatSteps(disk, sep, forceSwap)| == 3
    ensures Render(FormatSteps(disk, sep, forceSwap)[0].cmd) == "mkfs.vfat -F32 " + disk + sep + "1"
    ensures Render(FormatSteps(disk, sep, forceSwap)[1].cmd) == (if forceSwap then "mkswap -f " else "mkswap ") + disk + sep + "2"
    ensures Render(FormatSteps(disk, sep, forceSwap)[2].cmd) == "mkfs.btrfs -f -L ARCH " + disk + sep + "3"
  {
    assert NatToString(1) == "1" && NatToString(2) == "2" && NatToString(3) == "3";
    assert "mkfs.btrfs -f -L " + "ARCH" + " " == "mkfs.btrfs -f -L ARCH ";
  }

  /** The format lines of `base_install.py`: no separator for a disk whose name lacks `nvme`, and `mkswap -f`. */
  lemma BaseFormatText(disk: string)
    requires !Contains(disk, "nvme")
    ensures var steps := FormatSteps(disk, Separator(disk), true);
            && Render(steps[0].cmd) == "mkfs.vfat -F32 " + disk + "1"
            && Render(steps[1].cmd) == "mkswap -f " + disk + "2"
            && Render(steps[2].cmd) == "mkfs.btrfs -f -L ARCH " + disk + "3"
  {
    FormatText(disk, "", true);
    assert disk + "" == disk;
  }

  /** One line of the `for sv in [...]` loop, for any subvolume name. */
  lemma CreateLine(sv: string)
    ensures Render(CreateSubvolume(MountRoot + "/" + sv)) == "btrfs subvolume create /mnt/" + sv
  {
    assert "btrfs subvolume create " + (MountRoot + "/" + sv) == "btrfs subvolume create " + (MountRoot + "/") + sv;
  }

  /** The command lines of the subvolume group of `Install.py`. */
  lemma SubvolumeText(disk: string)
    ensures |SubvolumeSteps(disk, "p")| == 7
    ensures Render(RawRootMount(disk, "p").cmd) == "mount " + disk + "p3 /mnt"
    ensures forall i :: 0 <= i < |Subvolumes| ==>
              Render(SubvolumeCreates()[i].cmd) == "btrfs subvolume create /mnt/" + Subvolumes[i]
    ensures Render(RootUnmount.cmd) == "umount /mnt"
  {
    assert NatToString(3) == "3";
    Splice("mount ", disk, "p" + "3", " ", MountRoot);
    forall i | 0 <= i < |Subvolumes|
      ensures Render(SubvolumeCreates()[i].cmd) == "btrfs subvolume create /mnt/" + Subvolumes[i]
    {
      CreateLine(Subvolumes[i]);
    }
  }

  /** The option prefix of the `@` mount line. */
  lemma RootMountPrefix()
    ensures "mount -o subvol=" + "@" + "," + MountOptions + " " == "mount -o subvol=@,noatime,compress=zstd,commit=120 "
  {
  }

  /** The `@` mount line of `Install.py`. */
  lemma RootMountText(disk: string)
    ensures Render(RootSubvolumeMount(disk, "p").cmd) == "mount -o subvol=@,noatime,compress=zstd,commit=120 " + disk + "p3 /mnt"
  {
    assert NatToString(3) == "3";
    Splice("mount -o subvol=" + "@" + "," + MountOptions + " ", disk, "p" + "3", " ", MountRoot);
    RootMountPrefix();
  }

  /** A subvolume mount line with the shared options, for any subvolume, node and directory below `/mnt`. */
  lemma SubvolumeMountLine(sv: string, node: string, dir: string)
    ensures Render(MountSubvolume(sv, MountOptions, node, MountRoot + "/" + dir))
            == "mount -o subvol=" + sv + "," + MountOptions + " " + node + " /mnt/" + dir
  {
    var pre := "mount -o subvol=" + sv + "," + MountOptions + " " + node;
    assert pre + " " + (MountRoot + "/" + dir) == pre + (" " + MountRoot + "/") + dir;
  }

  /** The root partition of an NVMe-style disk in `Install.py`. */
  lemma RootNodeText(disk: string)
    ensures Node(disk, "p", 3) == disk + "p3"
  {
    assert NatToString(3) == "3";
  }

  /** The child mount lines of `Install.py`: each child subvolume of partition 3 on its directory below `/mnt`. */
  lemma ChildMountText(disk: string)
    ensures forall i :: 0 <= i < |ChildMounts| ==>
              Render(ChildSubvolumeMounts(disk, "p")[i].cmd)
              == "mount -o subvol=" + ChildMounts[i].0 + "," + MountOptions + " " + disk + "p3" + " /mnt/" + ChildMounts[i].1
  {
    RootNodeText(disk);
    forall i | 0 <= i < |ChildMounts|
      ensures Render(ChildSubvolumeMounts(disk, "p")[i].cmd)
              == "mount -o subvol=" + ChildMounts[i].0 + "," + MountOptions + " " + disk + "p3" + " /mnt/" + ChildMounts[i].1
    {
      SubvolumeMountLine(ChildMounts[i].0, Node(disk, "p", 3), ChildMounts[i].1);
    }
  }

  /** The command lines of the final mount group of `Install.py`: `@`, the children, `/boot`, swap. */
  lemma MountText(disk: string)
    ensures |MountSteps(disk, "p")| == 12
    ensures Render(RootSubvolumeMount(disk, "p").cmd) == "mount -o subvol=@,noatime,compress=zstd,commit=120 " + disk + "p3 /mnt"
    ensures Render(BootAndSwap(disk, "p")[0].cmd) == "mount " + disk + "p1 /mnt/boot"
    ensures Render(BootAndSwap(disk, "p")[1].cmd) == "swapon " + disk + "p2"
  {
    RootMountText(disk);
    assert NatToString(1) == "1" && NatToString(2) == "2";
    Splice("mount ", disk, "p" + "1", " ", MountRoot + "/" + "boot");
    assert "p" + "1" + " " + (MountRoot + "/" + "boot") == "p1 /mnt/boot";
  }
}
