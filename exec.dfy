/** The decision `_proc_exec` makes once a tool has run
    (lib/MagickLite.class.php:179-194): which exit status to believe, and
    whether to throw. Launching the process and reading its pipes are left to
    the host; what they report arrives here as a `Raw` value. */
module Exec {
  import opened Common
  import opened Php

  /** What `proc_get_status` reports, when it reports anything. */
  datatype ProcStatus = ProcStatus(running: bool, exitcode: int)

  /** Everything one run of a tool leaves behind: whether `proc_open` gave a
      process, the text on stdout and stderr, the status (None when
      `proc_get_status` returned false), what `proc_close` returned, and the
      text the shell wrapper echoed on descriptor 3. */
  datatype Raw = Raw(launched: bool, stdout: string, stderr: string, status: Option<ProcStatus>, closeRc: int, sidePipe: string)

  /** The value of `$rc` at line 185: an integer, or PHP null when the status
      was false (`$status['exitcode']` on false is null). */
  datatype ExitCode = NoCode | Code(n: int)

  /** The streams of a run that succeeded. */
  datatype Streams = Streams(stdout: string, stderr: string)

  /** Length of the optional `-` that `^(-?\d+)` may start with. */
  function SignLength(text: string): (n: nat)
    ensures n <= |text|
  {
    if |text| > 0 && text[0] == '-' then 1 else 0
  }

  /** The integer a signed digit string denotes. */
  function Signed(negative: bool, ds: string): int
    requires AllDigits(ds)
  {
    if negative then -(DecimalValue(ds) as int) else DecimalValue(ds)
  }

  /** The pattern `^(-?\d+)\s*$` applied to the side-pipe text, and `(int)` of
      its group: an optional minus, at least one digit, then nothing but
      white space. The digits stop at the first non-digit, so the cut `k`
      is unique. */
  function SidePipeCode(text: string): (r: Option<int>)
    ensures r.Some? <==>
      exists k :: SignLength(text) < k <= |text| && AllDigits(text[SignLength(text)..k]) && AllSpace(text[k..])
    ensures forall k :: SignLength(text) < k <= |text| && AllDigits(text[SignLength(text)..k]) && AllSpace(text[k..]) ==>
      r == Some(Signed(SignLength(text) == 1, text[SignLength(text)..k]))
  {
    var s0 := SignLength(text);
    var ds := DigitPrefix(text[s0..]);
    var k0 := s0 + |ds|;
    DigitRun(text, s0);
    forall k | s0 < k <= |text| && AllDigits(text[s0..k]) && AllSpace(text[k..])
      ensures k == k0
    {
      DigitRunCut(text, s0, k);
    }
    if |ds| > 0 && AllSpace(text[k0..]) then Some(Signed(s0 == 1, ds)) else None
  }

  /** The digit run from `s0` spans `text[s0..s0 + |run|]`. */
  lemma DigitRun(text: string, s0: nat)
    requires s0 <= |text|
    ensures var ds := DigitPrefix(text[s0..]);
      s0 + |ds| <= |text| && text[s0..s0 + |ds|] == ds && text[s0 + |ds|..] == text[s0..][|ds|..]
  {
    var ds := DigitPrefix(text[s0..]);
    assert text[s0..][..|ds|] == ds;
  }

  /** Digits up to `k` followed by white space only: the run stops at `k`. */
  lemma DigitRunCut(text: string, s0: nat, k: nat)
    requires s0 <= k <= |text| && AllDigits(text[s0..k]) && AllSpace(text[k..])
    ensures DigitPrefix(text[s0..]) == text[s0..k]
  {
    assert text[s0..] == text[s0..k] + text[k..];
    assert k < |text| ==> IsSpace(text[k..][0]);
    DigitPrefixOf(text[s0..k], text[k..]);
  }

  /** The wrapper `echo $? >&3` writes the status in decimal followed by a
      newline; the side-pipe pattern reads back exactly that status. */
  lemma EchoedStatusRecovered(n: int, ws: string)
    requires AllSpace(ws)
    ensures SidePipeCode(IntToString(n) + ws) == Some(n)
  {
    var text := IntToString(n) + ws;
    var digits := NatToString(if n < 0 then -n else n);
    if n < 0 {
      assert IntToString(n) == "-" + digits;
      assert text == "-" + digits + ws;
      assert SignLength(text) == 1;
      assert text[1..1 + |digits|] == digits;
      assert text[1 + |digits|..] == ws;
      assert Signed(true, digits) == n;
    } else {
      assert IntToString(n) == digits;
      assert text[0..|digits|] == digits;
      assert text[|digits|..] == ws;
      assert text[0] == digits[0];
      assert SignLength(text) == 0;
    }
  }

  /** Line 181 and lines 182-184: the status exit code, or the `proc_close`
      value while the status says the process still runs; a -1 there is
      replaced by the code echoed on the side pipe when that parses. */
  function Reconcile(status: Option<ProcStatus>, closeRc: int, sidePipe: string): (rc: ExitCode)
    ensures rc.NoCode? <==> status.None?
    ensures status.Some? ==>
      var primary := if status.value.running then closeRc else status.value.exitcode;
      rc == Code(primary) || (primary == -1 && SidePipeCode(sidePipe) == Some(rc.n))
  {
    match status
    case None => NoCode
    case Some(st) =>
      var primary := if st.running then closeRc else st.exitcode;
      if primary == -1 && SidePipeCode(sidePipe).Some? then Code(SidePipeCode(sidePipe).value) else Code(primary)
  }

  /** `$rc != 0`; PHP's `null != 0` is false, so a missing status passes. */
  predicate Failed(rc: ExitCode)
    ensures Failed(rc) <==> rc != NoCode && rc != Code(0)
  {
    rc.Code? && rc.n != 0
  }

  /** The source of the exit code: which of the three reports decides. */
  lemma ReconcileChoosesReport(status: Option<ProcStatus>, closeRc: int, sidePipe: string)
    ensures status.None? ==> Reconcile(status, closeRc, sidePipe) == NoCode && !Failed(Reconcile(status, closeRc, sidePipe))
    ensures status.Some? && status.value.running && closeRc != -1 ==> Reconcile(status, closeRc, sidePipe) == Code(closeRc)
    ensures status.Some? && !status.value.running && status.value.exitcode != -1 ==>
      Reconcile(status, closeRc, sidePipe) == Code(status.value.exitcode)
    ensures SidePipeCode(sidePipe).None? ==>
      Reconcile(status, closeRc, sidePipe) == (if status.None? then NoCode
        else Code(if status.value.running then closeRc else status.value.exitcode))
    ensures status.Some? && (if status.value.running then closeRc else status.value.exitcode) == -1 &&
            SidePipeCode(sidePipe).Some? ==>
      Reconcile(status, closeRc, sidePipe) == Code(SidePipeCode(sidePipe).value)
  {
  }

  /** The side pipe repairs an unreliable -1: whatever status or `proc_close`
      reported -1, the status the wrapper echoed is the one used. */
  lemma SidePipeRepairsMinusOne(running: bool, other: int, code: int, ws: string)
    requires AllSpace(ws)
    ensures var status := if running then ProcStatus(true, other) else ProcStatus(false, -1);
      var closeRc := if running then -1 else other;
      Reconcile(Some(status), closeRc, IntToString(code) + ws) == Code(code)
  {
    EchoedStatusRecovered(code, ws);
  }

  /** The message of the exception at lines 186-193. */
  function ExitMessage(code: int, shell: string, stderr: string): (m: string)
    ensures |m| > |"Bad exit code "| + |stderr|
    ensures m[..|"Bad exit code "|] == "Bad exit code "
    ensures |stderr| > 0 ==> m[|m| - |stderr|..] == stderr
    ensures |stderr| == 0 ==> m[|m| - 1] == '.'
  {
    var head := "Bad exit code " + IntToString(code) + " from command '" + shell + "'";
    if |stderr| > 0 then head + " and this error output: " + stderr else head + "."
  }

  /** The outcome of one run: the process could not be opened, it exited
      with a non-zero code, or its streams are handed back. */
  function ExecOutcome(shell: string, raw: Raw): (r: Result<Streams>)
    ensures r.Success? <==> raw.launched && !Failed(Reconcile(raw.status, raw.closeRc, raw.sidePipe))
    ensures r.Success? ==> r.value == Streams(raw.stdout, raw.stderr)
    ensures !raw.launched ==> r == Failure(SpawnFailed(shell))
    ensures raw.launched && Failed(Reconcile(raw.status, raw.closeRc, raw.sidePipe)) ==>
      var code := Reconcile(raw.status, raw.closeRc, raw.sidePipe).n;
      r == Failure(BadExit(code, ExitMessage(code, shell, raw.stderr)))
  {
    if !raw.launched then Failure(SpawnFailed(shell))
    else
      var rc := Reconcile(raw.status, raw.closeRc, raw.sidePipe);
      if Failed(rc) then Failure(BadExit(rc.n, ExitMessage(rc.n, shell, raw.stderr)))
      else Success(Streams(raw.stdout, raw.stderr))
  }
}
