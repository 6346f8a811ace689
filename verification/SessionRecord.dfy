/** One exec session of the sidecar (go/sec-execd/main.go): the record that a lifecycle
    goroutine, two output streamers and any number of client calls update under its lock.
    Each lock-held section is one method of `SessionRecord`, and one function on `Rec`. */
module SessionRecords {
  import opened Options
  import opened Text

  newtype byte = x: int | 0 <= x < 256

  datatype Status = Running | Done | Failed | TimedOut | Killed

  /** The owner tuple a request carries. */
  datatype Owner = Owner(tenant: string, workspace: string, channel: string, sender: string, chat: string)

  /** The command's context: live, cancelled by kill, or past its deadline; the first cause wins. */
  datatype Context = Live | Canceled | DeadlineExceeded

  datatype Stream = Out | Err

  /** Where the lifecycle goroutine of the record is. */
  datatype Phase = Launching | Streaming(open: set<Stream>) | Ended

  datatype Signal = Interrupt | Terminate | Kill | Unknown

  datatype Rec = Rec(
    owner: Owner, expiresAt: int, maxOutput: int, pty: bool,
    status: Status, errorCode: string, finishedAt: int, exitCode: int,
    stdout: seq<byte>, truncated: bool, rows: int, cols: int,
    stdinOpen: bool, hasProcess: bool, killRequested: bool,
    context: Context, phase: Phase)

  function Cap(maxOutput: int): nat {
    if maxOutput > 0 then maxOutput else 0
  }

  /** The owner tuple as `start` stores it. */
  function StoredOwner(o: Owner): Owner {
    Owner(Trim(o.tenant), Trim(o.workspace), Trim(o.channel), Trim(o.sender), Trim(o.chat))
  }

  function NewRec(caller: Owner, now: int, timeoutSec: int, maxOutput: int, pty: bool): Rec {
    Rec(StoredOwner(caller), now + timeoutSec * 1000, maxOutput, pty,
        Running, "", 0, 0, [], false, 0, 0, false, false, false, Live, Launching)
  }

  predicate Terminal(s: Status) {
    s != Running
  }

  // --- enforceSessionOwner ---

  datatype OwnerError = TenantMismatch | WorkspaceMismatch | ChannelMismatch | SenderMismatch | ChatMismatch
    | SessionExpired

  function EnforceOwner(owner: Owner, expiresAt: int, caller: Owner, now: int): Option<OwnerError> {
    if Trim(owner.tenant) != "" && Lower(Trim(owner.tenant)) != Lower(Trim(caller.tenant)) then Some(TenantMismatch)
    else if Trim(owner.workspace) != "" && Trim(owner.workspace) != Trim(caller.workspace) then Some(WorkspaceMismatch)
    else if Trim(owner.channel) != "" && Lower(Trim(owner.channel)) != Lower(Trim(caller.channel)) then
      Some(ChannelMismatch)
    else if Trim(owner.sender) != "" && Trim(owner.sender) != Trim(caller.sender) then Some(SenderMismatch)
    else if Trim(owner.chat) != "" && Trim(owner.chat) != Trim(caller.chat) then Some(ChatMismatch)
    else if expiresAt > 0 && now > expiresAt then Some(SessionExpired)
    else None
  }

  /** The record's owner tuple accepts the caller, time aside: every field the record pins
      agrees with the caller's. */
  predicate OwnerAccepts(owner: Owner, caller: Owner) {
    && (Trim(owner.tenant) == "" || Lower(Trim(owner.tenant)) == Lower(Trim(caller.tenant)))
    && (Trim(owner.workspace) == "" || Trim(owner.workspace) == Trim(caller.workspace))
    && (Trim(owner.channel) == "" || Lower(Trim(owner.channel)) == Lower(Trim(caller.channel)))
    && (Trim(owner.sender) == "" || Trim(owner.sender) == Trim(caller.sender))
    && (Trim(owner.chat) == "" || Trim(owner.chat) == Trim(caller.chat))
  }

  lemma OwnerCheckMeaning(r: Rec, caller: Owner, now: int)
    ensures EnforceOwner(r.owner, r.expiresAt, caller, now) == None <==>
            OwnerAccepts(r.owner, caller) && (r.expiresAt <= 0 || now <= r.expiresAt)
  {
  }

  /** The caller that started a session passes the owner check exactly until it expires. */
  lemma StarterIsAccepted(caller: Owner, started: int, timeoutSec: int, maxOutput: int, pty: bool, now: int)
    ensures var r := NewRec(caller, started, timeoutSec, maxOutput, pty);
            && OwnerAccepts(r.owner, caller)
            && (EnforceOwner(r.owner, r.expiresAt, caller, now) == None <==>
                  started + 1000 * timeoutSec <= 0 || now <= started + 1000 * timeoutSec)
  {
    TrimIdempotent(caller.tenant);
    TrimIdempotent(caller.workspace);
    TrimIdempotent(caller.channel);
    TrimIdempotent(caller.sender);
    TrimIdempotent(caller.chat);
  }

  // --- the lock-held sections, on values ---

  function Finish(r: Rec, status: Status, code: string, exitCode: int, now: int): Rec {
    r.(status := status, errorCode := code, exitCode := exitCode, finishedAt := now, phase := Ended)
  }

  /** The command or its pipes could not be built. */
  function PrepareFailed(r: Rec, code: string, now: int): Rec {
    Finish(r, Failed, code, r.exitCode, now)
  }

  /** `cmd.Start` failed. */
  function StartFailed(r: Rec, now: int): Rec {
    if r.killRequested || r.context == Canceled then Finish(r, Killed, "command_killed", r.exitCode, now)
    else Finish(r, Failed, "command_spawn_failed", r.exitCode, now)
  }

  function Spawned(r: Rec): Rec {
    r.(hasProcess := true, stdinOpen := true, phase := Streaming({Out, Err}))
  }

  function Append(r: Rec, chunk: seq<byte>): Rec {
    if chunk == [] || r.truncated then r
    else
      var remaining := r.maxOutput - |r.stdout|;
      if remaining <= 0 then r.(truncated := true)
      else if |chunk| > remaining then r.(stdout := r.stdout + chunk[..remaining], truncated := true)
      else r.(stdout := r.stdout + chunk)
  }

  function StreamClosed(r: Rec, s: Stream): Rec {
    if r.phase.Streaming? then r.(phase := Streaming(r.phase.open - {s})) else r
  }

  function DeadlinePasses(r: Rec): Rec {
    if r.context == Live then r.(context := DeadlineExceeded) else r
  }

  /** The process ended and both streams are drained. */
  function ProcessEnded(r: Rec, exit: Option<int>, now: int): Rec {
    var closed := r.(stdinOpen := false);
    if r.context == DeadlineExceeded then Finish(closed, TimedOut, "command_timeout", r.exitCode, now)
    else if r.killRequested then Finish(closed, Killed, "command_killed", r.exitCode, now)
    else if exit.Some? then Finish(closed, Failed, "nonzero_exit", exit.value, now)
    else closed.(status := Done, exitCode := 0, finishedAt := now, phase := Ended)
  }

  function KillRec(r: Rec): Rec {
    if Terminal(r.status) then r
    else r.(killRequested := true, stdinOpen := false, context := if r.context == Live then Canceled else r.context)
  }

  function SignalRec(r: Rec, s: Signal): Rec {
    if r.status == Running && r.hasProcess && (s == Terminate || s == Kill) then r.(killRequested := true) else r
  }

  function ResizeRec(r: Rec, rows: int, cols: int): Rec {
    if r.status == Running && r.pty && rows > 0 && cols > 0 then r.(rows := rows, cols := cols) else r
  }

  // --- reading ---

  datatype Chunk = Chunk(data: seq<byte>, cursor: nat, next: nat, status: Status, truncated: bool)

  function EffectiveMax(maxBytes: int): nat {
    if maxBytes <= 0 then 1024 else maxBytes
  }

  function ReadRec(r: Rec, cursor: int, maxBytes: int): Chunk {
    var start := if cursor < 0 then 0 else if cursor > |r.stdout| then |r.stdout| else cursor;
    var end := if start + EffectiveMax(maxBytes) > |r.stdout| then |r.stdout| else start + EffectiveMax(maxBytes);
    Chunk(r.stdout[start..end], start, end, r.status, r.truncated)
  }

  /** Input can reach the process. */
  predicate Writable(r: Rec) {
    r.status == Running && r.stdinOpen
  }

  function SignalCode(r: Rec, s: Signal, delivered: bool): string {
    if r.status != Running then "session_not_running"
    else if !r.hasProcess then "process_unavailable"
    else if s == Unknown then "invalid_signal"
    else if delivered then "" else "signal_delivery_failed"
  }

  function ResizeCode(r: Rec, rows: int, cols: int): string {
    if r.status != Running then "session_not_running"
    else if !r.pty then "pty_required"
    else if rows <= 0 || cols <= 0 then "invalid_dimensions" else ""
  }

  /** How much input got through, and the code. */
  function WriteAnswer(r: Rec, piped: nat, broken: bool): (nat, string) {
    if r.status != Running then (0, "session_not_running")
    else if !r.stdinOpen then (0, "stdin_unavailable")
    else (piped, if broken then "stdin_write_failed" else "")
  }

  /** The record as the goroutines and client calls share it. */
  class SessionRecord {
    const owner: Owner
    const expiresAt: int
    const maxOutput: int
    const pty: bool
    var status: Status
    var errorCode: string
    var finishedAt: int
    var exitCode: int
    var stdout: seq<byte>
    var truncated: bool
    var rows: int
    var cols: int
    var stdinOpen: bool
    var hasProcess: bool
    var killRequested: bool
    var context: Context
    var phase: Phase

    ghost function View(): Rec
      reads this
    {
      Rec(owner, expiresAt, maxOutput, pty, status, errorCode, finishedAt, exitCode, stdout, truncated,
          rows, cols, stdinOpen, hasProcess, killRequested, context, phase)
    }

    constructor (caller: Owner, now: int, timeoutSec: int, maxOutput: int, pty: bool)
      ensures View() == NewRec(caller, now, timeoutSec, maxOutput, pty)
      ensures status == Running && phase == Launching && context == Live && !killRequested && !hasProcess && !stdinOpen
      ensures stdout == [] && !truncated && errorCode == "" && exitCode == 0 && finishedAt == 0 && rows == 0 && cols == 0
      ensures this.maxOutput == maxOutput && this.pty == pty && expiresAt == now + 1000 * timeoutSec
      ensures owner.tenant == Trim(caller.tenant) && owner.workspace == Trim(caller.workspace)
      ensures owner.channel == Trim(caller.channel) && owner.sender == Trim(caller.sender) && owner.chat == Trim(caller.chat)
    {
      this.owner := StoredOwner(caller);
      this.expiresAt := now + timeoutSec * 1000;
      this.maxOutput, this.pty := maxOutput, pty;
      status, errorCode, finishedAt, exitCode := Running, "", 0, 0;
      stdout, truncated, rows, cols := [], false, 0, 0;
      stdinOpen, hasProcess, killRequested := false, false, false;
      context, phase := Live, Launching;
    }

    method CheckOwner(caller: Owner, now: int) returns (error: Option<OwnerError>)
      ensures error == EnforceOwner(owner, expiresAt, caller, now)
      ensures error == None ==> OwnerAccepts(owner, caller)
    {
      error := EnforceOwner(owner, expiresAt, caller, now);
    }

    method FailPrepare(code: string, now: int)
      modifies this
      ensures View() == PrepareFailed(old(View()), code, now)
    {
      status, errorCode, finishedAt, phase := Failed, code, now, Ended;
    }

    method FailStart(now: int)
      modifies this
      ensures View() == StartFailed(old(View()), now)
    {
      if killRequested || context == Canceled {
        status, errorCode := Killed, "command_killed";
      } else {
        status, errorCode := Failed, "command_spawn_failed";
      }
      finishedAt, phase := now, Ended;
    }

    method AttachProcess()
      modifies this
      ensures View() == Spawned(old(View()))
    {
      hasProcess, stdinOpen, phase := true, true, Streaming({Out, Err});
    }

    method AppendOutput(chunk: seq<byte>)
      modifies this
      ensures View() == Append(old(View()), chunk)
    {
      if |chunk| == 0 { return; }
      if truncated { return; }
      var remaining := maxOutput - |stdout|;
      if remaining <= 0 {
        truncated := true;
        return;
      }
      if |chunk| > remaining {
        stdout := stdout + chunk[..remaining];
        truncated := true;
        return;
      }
      stdout := stdout + chunk;
    }

    method CloseStream(s: Stream)
      modifies this
      ensures View() == StreamClosed(old(View()), s)
    {
      if phase.Streaming? { phase := Streaming(phase.open - {s}); }
    }

    method PassDeadline()
      modifies this
      ensures View() == DeadlinePasses(old(View()))
    {
      if context == Live { context := DeadlineExceeded; }
    }

    method EndProcess(exit: Option<int>, now: int)
      modifies this
      ensures View() == ProcessEnded(old(View()), exit, now)
    {
      if stdinOpen { stdinOpen := false; }
      finishedAt, phase := now, Ended;
      if context == DeadlineExceeded {
        status, errorCode := TimedOut, "command_timeout";
        return;
      }
      if killRequested {
        status, errorCode := Killed, "command_killed";
        return;
      }
      if exit.Some? {
        status, errorCode, exitCode := Failed, "nonzero_exit", exit.value;
        return;
      }
      status, exitCode := Done, 0;
    }

    method RequestKill() returns (killed: bool)
      modifies this
      ensures View() == KillRec(old(View())) && killed == (old(status) == Running)
      ensures killed ==> killRequested && !stdinOpen && context != Live
      ensures !killed ==> View() == old(View())
    {
      if status != Running { return false; }
      killRequested := true;
      if stdinOpen { stdinOpen := false; }
      if context == Live { context := Canceled; }
      return true;
    }

    /** `osAccepts` is whether the operating system delivered the signal. */
    method SendSignal(s: Signal, osAccepts: bool) returns (delivered: bool, code: string)
      modifies this
      ensures View() == SignalRec(old(View()), s)
      ensures code == SignalCode(old(View()), s, osAccepts) && delivered == (code == "")
      ensures delivered <==> old(status) == Running && old(hasProcess) && s != Unknown && osAccepts
      ensures code == "session_not_running" <==> old(status) != Running
      ensures code == "process_unavailable" <==> old(status) == Running && !old(hasProcess)
      ensures code == "invalid_signal" <==> old(status) == Running && old(hasProcess) && s == Unknown
      ensures killRequested <==>
              old(killRequested) || (old(status) == Running && old(hasProcess) && (s == Terminate || s == Kill))
    {
      if status != Running { return false, "session_not_running"; }
      if !hasProcess { return false, "process_unavailable"; }
      if s == Unknown { return false, "invalid_signal"; }
      if s != Interrupt { killRequested := true; }
      if !osAccepts { return false, "signal_delivery_failed"; }
      return true, "";
    }

    method Resize(rows: int, cols: int) returns (applied: bool, code: string)
      modifies this
      ensures View() == ResizeRec(old(View()), rows, cols)
      ensures code == ResizeCode(old(View()), rows, cols) && applied == (code == "")
      ensures applied <==> old(status) == Running && pty && rows > 0 && cols > 0
      ensures (this.rows, this.cols) == if applied then (rows, cols) else (old(this.rows), old(this.cols))
      ensures code == "session_not_running" <==> old(status) != Running
      ensures code == "pty_required" <==> old(status) == Running && !pty
    {
      if status != Running { return false, "session_not_running"; }
      if !pty { return false, "pty_required"; }
      if rows <= 0 || cols <= 0 { return false, "invalid_dimensions"; }
      this.rows, this.cols := rows, cols;
      return true, "";
    }

    /** The pipe takes `piped` bytes, and all of them unless it is `broken`. */
    method WriteInput(input: seq<byte>, piped: nat, broken: bool) returns (written: nat, code: string)
      requires piped <= |input| && (!broken ==> piped == |input|)
      ensures Writable(View()) ==> written == piped && code == (if broken then "stdin_write_failed" else "")
      ensures !Writable(View()) ==> written == 0 && code != "" && code != "stdin_write_failed"
      ensures code == "session_not_running" <==> Terminal(View().status)
      ensures code == "" ==> written == |input|
      ensures (written, code) == WriteAnswer(View(), piped, broken)
    {
      if status != Running { return 0, "session_not_running"; }
      if !stdinOpen { return 0, "stdin_unavailable"; }
      if broken { return piped, "stdin_write_failed"; }
      return piped, "";
    }

    method ReadChunk(cursor: int, maxBytes: int) returns (c: Chunk)
      ensures c == ReadRec(View(), cursor, maxBytes)
      ensures c.cursor <= c.next <= |stdout| && c.data == stdout[c.cursor..c.next]
      ensures c.status == status && c.truncated == truncated
      ensures 0 <= cursor <= |stdout| ==> c.cursor == cursor
      ensures cursor < 0 ==> c.cursor == 0
      ensures cursor > |stdout| ==> c.cursor == |stdout|
      ensures c.next == |stdout| || c.next - c.cursor == (if maxBytes > 0 then maxBytes else 1024)
      ensures c.next - c.cursor <= (if maxBytes > 0 then maxBytes else 1024)
    {
      var total, start := |stdout|, cursor;
      if start < 0 { start := 0; }
      if start > total { start := total; }
      var limit := maxBytes;
      if limit <= 0 { limit := 1024; }
      var end := start + limit;
      if end > total { end := total; }
      return Chunk(stdout[start..end], start, end, status, truncated);
    }
  }
}
