/**
 * The interactive front of `base_install.py`: the whiptail `inputbox` and
 * `passwordbox` helpers and the NVMe-first disk detection. Whiptail and
 * `glob` are not run: what they would return is an input.
 */
module Prompts {
  import opened Wrappers
  import opened Text

  /** What `subprocess.run` returns for one whiptail dialog. */
  datatype Reply = Reply(returncode: int, stdout: string)

  /**
   * How the whiptail call of `inputbox` ended: with a reply, or with an
   * exception, after which the user typed `typed` at the plain `input` prompt.
   */
  datatype Dialog = Answered(reply: Reply) | Raised(typed: string)

  /** The answer a prompt produced, or the `sys.exit` status that ended the script. */
  datatype Answer = Value(text: string) | Exit(status: int)

  /** `inputbox`: a cancelled dialog ends the script with status 0. */
  function InputBox(d: Dialog, default: string): (a: Answer)
    ensures a.Exit? <==> d.Answered? && d.reply.returncode != 0
    ensures a.Exit? ==> a.status == 0
    ensures a.Value? && d.Answered? ==>
              && a.text == Strip(d.reply.stdout)
              && (a.text == [] || (!IsSpace(a.text[0]) && !IsSpace(a.text[|a.text| - 1])))
    ensures a.Value? && d.Raised? ==> a.text == (if d.typed == "" then default else d.typed)
  {
    match d
    case Answered(r) => if r.returncode != 0 then Exit(0) else Value(Strip(r.stdout))
    case Raised(typed) => Value(if typed == "" then default else typed)
  }

  /**
   * The answer `inputbox` gives from an accepted dialog is a piece of what
   * whiptail printed with only whitespace cut from either end.
   */
  lemma InputBoxTrims(r: Reply, default: string)
    requires r.returncode == 0
    ensures var a := InputBox(Answered(r), default);
            && a.Value?
            && exists i, j :: 0 <= i <= j <= |r.stdout| && a.text == r.stdout[i..j]
                             && SpaceIn(r.stdout, 0, i) && SpaceIn(r.stdout, j, |r.stdout|)
  {
    StripSlice(r.stdout);
  }

  /** The fallback never yields an empty answer when the default is not empty. */
  lemma InputBoxFallbackNonEmpty(typed: string, default: string)
    requires default != ""
    ensures var a := InputBox(Raised(typed), default);
            a.Value? && a.text != ""
  {
  }

  /** One round of `passwordbox`: the raw output of the password and the confirmation dialogs. */
  datatype Attempt = Attempt(password: string, confirmation: string)

  /** The check `passwordbox` applies to one round, after stripping both answers. */
  predicate Accepted(t: Attempt) {
    Strip(t.password) == Strip(t.confirmation) && Strip(t.password) != ""
  }

  /** The password `passwordbox` returned, if any, and how many error messages it showed. */
  datatype PasswordOutcome = PasswordOutcome(password: Option<string>, errors: nat)

  /**
   * `passwordbox` given the rounds the user goes through: it returns the
   * first accepted password, showing the "do not match or empty" message once
   * for every rejected round before it. Python keeps asking forever; here
   * `password` is `None` when the given rounds run out first.
   */
  function PasswordBox(attempts: seq<Attempt>): (r: PasswordOutcome)
    ensures r.password.Some? <==> exists i :: 0 <= i < |attempts| && Accepted(attempts[i])
    ensures r.password.Some? ==>
              && r.errors < |attempts|
              && Accepted(attempts[r.errors])
              && r.password.value == Strip(attempts[r.errors].password)
              && r.password.value == Strip(attempts[r.errors].confirmation)
              && r.password.value != ""
              && forall j :: 0 <= j < r.errors ==> !Accepted(attempts[j])
    ensures r.password.None? ==> r.errors == |attempts|
  {
    if |attempts| == 0 then PasswordOutcome(None, 0)
    else if Accepted(attempts[0]) then PasswordOutcome(Some(Strip(attempts[0].password)), 0)
    else
      var rest := PasswordBox(attempts[1..]);
      AcceptedSomewhereShifts(attempts);
      if rest.password.Some? then
        RejectedPrefixShifts(attempts, rest.errors);
        assert attempts[1..][rest.errors] == attempts[rest.errors + 1];
        PasswordOutcome(rest.password, rest.errors + 1)
      else PasswordOutcome(None, rest.errors + 1)
  }

  /** Shifting past a rejected first round keeps the rounds before any position rejected. */
  lemma RejectedPrefixShifts(attempts: seq<Attempt>, n: nat)
    requires |attempts| > 0 && !Accepted(attempts[0])
    requires forall j :: 0 <= j < n && j < |attempts| - 1 ==> !Accepted(attempts[1..][j])
    ensures forall j :: 0 <= j < n + 1 && j < |attempts| ==> !Accepted(attempts[j])
  {
    forall j | 0 < j < n + 1 && j < |attempts| ensures !Accepted(attempts[j]) {
      assert attempts[1..][j - 1] == attempts[j];
    }
  }

  /** With the first round rejected, a round is accepted somewhere exactly when one is accepted after it. */
  lemma AcceptedSomewhereShifts(attempts: seq<Attempt>)
    requires |attempts| > 0 && !Accepted(attempts[0])
    ensures (exists i :: 0 <= i < |attempts| - 1 && Accepted(attempts[1..][i])) <==>
              (exists i :: 0 <= i < |attempts| && Accepted(attempts[i]))
  {
    if exists i :: 0 <= i < |attempts| && Accepted(attempts[i]) {
      var i :| 0 <= i < |attempts| && Accepted(attempts[i]);
      assert attempts[1..][i - 1] == attempts[i];
    }
    if exists i :: 0 <= i < |attempts| - 1 && Accepted(attempts[1..][i]) {
      var i :| 0 <= i < |attempts| - 1 && Accepted(attempts[1..][i]);
      assert attempts[1..][i] == attempts[i + 1];
    }
  }

  /** The patterns `base_install.py` probes, NVMe first. */
  const NvmePattern: string := "/dev/nvme[0-9]n[1-9]"
  const SataPattern: string := "/dev/sd[a-z]"

  const NoDriveMessage: string := "Critical Error: No usable drive found!"

  /** The disk chosen, or the message `sys.exit` ends the script with (exit status 1). */
  datatype DiskChoice = Chosen(disk: string) | NoDrive(message: string)

  /** The outcome of the drive detection together with the `glob` patterns it probed, in order. */
  datatype Detection = Detection(choice: DiskChoice, probed: seq<string>)

  /**
   * The drive detection of `base_install.py`'s `__main__`: `nvme` and `sata`
   * are what the two `glob` calls would return.
   */
  function DetectDisk(nvme: seq<string>, sata: seq<string>): (d: Detection)
    ensures |d.probed| >= 1 && d.probed[0] == NvmePattern
    ensures SataPattern in d.probed <==> |nvme| == 0
    ensures d.choice.NoDrive? <==> |nvme| == 0 && |sata| == 0
    ensures d.choice.NoDrive? ==> d.choice.message == NoDriveMessage
    ensures d.choice.Chosen? ==> d.choice.disk == (if |nvme| > 0 then nvme[0] else sata[0])
  {
    if |nvme| > 0 then Detection(Chosen(nvme[0]), [NvmePattern])
    else if |sata| > 0 then Detection(Chosen(sata[0]), [NvmePattern, SataPattern])
    else Detection(NoDrive(NoDriveMessage), [NvmePattern, SataPattern])
  }

  /** A chosen disk is always one of the candidates `glob` reported, and an NVMe one whenever there is one. */
  lemma ChosenIsCandidate(nvme: seq<string>, sata: seq<string>)
    ensures var c := DetectDisk(nvme, sata).choice;
            c.Chosen? ==> (c.disk in nvme || c.disk in sata) && (|nvme| > 0 ==> c.disk in nvme)
  {
  }
}
