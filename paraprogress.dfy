/**
 * The per-task progress record of the parallel progress display: a status
 * state machine driven by messages, a log buffer fed through Write, and the
 * rule that picks which log lines the view shows.
 */
module Paraprogress {
  import opened Wrappers
  import opened GoStrings

  datatype ProcessStatus = StatusPending | StatusRunning | StatusFailed | StatusSuccess

  /** The number of log lines the view shows at most. */
  const LOGLEN: nat := 5

  /** The messages a process reacts to; an error is its text, None is nil. */
  datatype Msg =
    | ProgressMsg(id: int, progress: real)
    | StatusMsg(id: int, status: ProcessStatus, err: Option<string>)
    | WindowSizeMsg(width: int)
    | OtherMsg  // spinner and timer ticks, and everything else: no effect on the fields modelled

  /** The message-driven part of a process: what Update may change, and the logs it keeps. */
  datatype ProcessState = ProcessState(
    status: ProcessStatus, percent: real, err: Option<string>, width: int, logs: seq<string>)

  /** The effect of one message on a process whose id is `self`. */
  function Step(s: ProcessState, self: int, msg: Msg): (t: ProcessState)
    ensures t.logs == s.logs
    ensures (msg.ProgressMsg? || msg.StatusMsg?) && msg.id != self ==> t == s
    ensures msg.ProgressMsg? && msg.id == self ==>
      && t == s.(percent := t.percent)
      && t.percent <= 1.0
      && (msg.progress <= 1.0 ==> t.percent == msg.progress)
      && (msg.progress > 1.0 ==> t.percent == 1.0)
    ensures msg.StatusMsg? && msg.id == self ==>
      && t.status == msg.status
      && t.width == s.width
      && (msg.status == StatusFailed ==> t.err == msg.err && t.percent == s.percent)
      && (msg.status == StatusSuccess ==> t.percent == 1.0 && t.err == s.err)
      && (msg.status in {StatusPending, StatusRunning} ==> t == s.(status := msg.status))
    ensures msg.WindowSizeMsg? ==> t == s.(width := msg.width)
    ensures msg.OtherMsg? ==> t == s
    ensures s.percent <= 1.0 ==> t.percent <= 1.0
  {
    match msg
    case ProgressMsg(mid, p) =>
      if mid != self then s
      else s.(percent := if p > 1.0 then 1.0 else p)
    case StatusMsg(mid, st, e) =>
      if mid != self then s
      else if st == StatusFailed then s.(status := st, err := e)
      else if st == StatusSuccess then s.(status := st, percent := 1.0)
      else s.(status := st)
    case WindowSizeMsg(w) => s.(width := w)
    case OtherMsg => s
  }

  /** The effect of a sequence of messages, in delivery order. */
  function Run(s: ProcessState, self: int, msgs: seq<Msg>): ProcessState
    decreases |msgs|
  {
    if msgs == [] then s else Run(Step(s, self, msgs[0]), self, msgs[1..])
  }

  /** Progress and status messages addressed to other processes leave a process as it was. */
  lemma {:induction false} ForeignMessagesIgnored(s: ProcessState, self: int, msgs: seq<Msg>)
    requires forall i :: 0 <= i < |msgs| ==> (msgs[i].ProgressMsg? || msgs[i].StatusMsg?) && msgs[i].id != self
    ensures Run(s, self, msgs) == s
    decreases |msgs|
  {
    if msgs != [] {
      ForeignMessagesIgnored(s, self, msgs[1..]);
    }
  }

  /**
   * onProgress: the progress message a running job reports, if the display
   * program is attached and the value is not negative.
   */
  function OnProgress(self: int, progress: real, attached: bool): (m: Option<Msg>)
    ensures m.Some? <==> attached && progress >= 0.0
    ensures m.Some? ==> m.value.ProgressMsg? && m.value.id == self && m.value.progress == progress
  {
    if !attached || progress < 0.0 then None else Some(ProgressMsg(self, progress))
  }

  /**
   * A message a process can receive when every progress message comes from
   * onProgress: progress values are never negative.
   */
  predicate WellFormed(msg: Msg)
  {
    msg.ProgressMsg? ==> msg.progress >= 0.0
  }

  /** Fed only well-formed messages, a process keeps its percentage between 0 and 1. */
  lemma {:induction false} PercentStaysInRange(s: ProcessState, self: int, msgs: seq<Msg>)
    requires 0.0 <= s.percent <= 1.0
    requires forall i :: 0 <= i < |msgs| ==> WellFormed(msgs[i])
    ensures 0.0 <= Run(s, self, msgs).percent <= 1.0
    decreases |msgs|
  {
    if msgs != [] {
      PercentStaysInRange(Step(s, self, msgs[0]), self, msgs[1..]);
    }
  }

  /** The status a job settles on: success exactly when it returned no error. */
  function JobStatus(outcome: Option<string>): (st: ProcessStatus)
    ensures st == StatusSuccess <==> outcome.None?
    ensures st == StatusFailed <==> outcome.Some?
  {
    if outcome.None? then StatusSuccess else StatusFailed
  }

  /**
   * The status message the finished job sends, once delivered, leaves the
   * process in that status: a failure records the error, a success completes
   * the bar.
   */
  lemma JobMessageSettles(s: ProcessState, self: int, outcome: Option<string>)
    ensures var t := Step(s, self, StatusMsg(self, JobStatus(outcome), outcome));
      && t.status == JobStatus(outcome)
      && (outcome.Some? ==> t.err == outcome)
      && (outcome.None? ==> t.percent == 1.0)
  {
  }

  /** The log lines one Write appends. */
  function Lines(b: string): (lines: seq<string>)
    ensures |lines| == Count(TrimSuffix(b, "\n"), '\n') + 1
    ensures forall i :: 0 <= i < |lines| ==> '\n' !in lines[i]
    ensures Join(lines, '\n') == ReplaceCRLF(TrimSuffix(b, "\n"))
  {
    ReplaceCRLFFacts(TrimSuffix(b, "\n"));
    Split(ReplaceCRLF(TrimSuffix(b, "\n")), '\n')
  }

  /**
   * Write drops one trailing newline only: a chunk ending in a newline gives
   * one line per newline, any other chunk one line more.
   */
  lemma LinesCount(b: string)
    ensures HasSuffix(b, "\n") ==> |Lines(b)| == Count(b, '\n')
    ensures !HasSuffix(b, "\n") ==> |Lines(b)| == Count(b, '\n') + 1
  {
    if HasSuffix(b, "\n") {
      CountAppend(TrimSuffix(b, "\n"), "\n", '\n');
    }
  }

  /** The global id counter. */
  class IdCounter {
    var lastID: int
    ghost var issued: set<int>

    ghost predicate Valid()
      reads this
    {
      forall x :: x in issued ==> x <= lastID
    }

    constructor ()
      ensures Valid() && lastID == 0 && issued == {}
    {
      lastID := 0;
      issued := {};
    }

    /** nextID: a fresh id, above every id handed out before. */
    method Next() returns (id: int)
      requires Valid()
      modifies this
      ensures Valid()
      ensures id == old(lastID) + 1 && lastID == id
      ensures issued == old(issued) + {id}
      ensures forall x :: x in old(issued) ==> x < id
    {
      lastID := lastID + 1;
      id := lastID;
      issued := issued + {id};
    }
  }

  class Process {
    const id: int
    var percent: real
    var width: int
    var logs: seq<string>
    var err: Option<string>
    var Name: string
    var NameWidth: int
    var Status: ProcessStatus

    /** The percentage never exceeds 1 and every log entry is a single line. */
    ghost predicate Valid()
      reads this
    {
      && percent <= 1.0
      && forall i :: 0 <= i < |logs| ==> '\n' !in logs[i]
    }

    ghost function State(): ProcessState
      reads this
    {
      ProcessState(Status, percent, err, width, logs)
    }

    /** NewProcess: a pending process under a fresh id, with no progress and no logs. */
    constructor (name: string, ids: IdCounter)
      requires ids.Valid()
      modifies ids
      ensures Valid() && ids.Valid()
      ensures id == ids.lastID && ids.issued == old(ids.issued) + {id}
      ensures forall x :: x in old(ids.issued) ==> x < id
      ensures Name == name && NameWidth == |name|
      ensures Status == StatusPending && percent == 0.0 && err == None && width == 0 && logs == []
    {
      var newId := ids.Next();
      id := newId;
      Name := name;
      NameWidth := |name|;
      Status := StatusPending;
      percent := 0.0;
      width := 0;
      logs := [];
      err := None;
    }

    /** Write: appends the lines of `b` to the logs and reports all of `b` written. */
    method Write(b: string) returns (n: int, e: Option<string>)
      requires Valid()
      modifies this`logs
      ensures Valid()
      ensures logs == old(logs) + Lines(b)
      ensures n == |b| && e == None
    {
      var line := TrimSuffix(b, "\n");
      var lines := Split(ReplaceCRLF(line), '\n');
      logs := logs + lines;
      n, e := |b|, None;
    }

    /** Update: reacts to one message; the process itself is returned. */
    method Update(msg: Msg) returns (d: Process)
      requires Valid()
      modifies this`Status, this`percent, this`err, this`width
      ensures Valid() && d == this
      ensures State() == Step(old(State()), id, msg)
    {
      d := this;
      match msg
      case ProgressMsg(mid, p) =>
        if mid != id {
          return;
        }
        var progress := p;
        if progress > 1.0 {
          progress := 1.0;
        }
        percent := progress;
      case StatusMsg(mid, st, e) =>
        if mid != id {
          return;
        }
        Status := st;
        if Status == StatusFailed {
          err := e;
        } else if Status == StatusSuccess {
          percent := 1.0;
        }
      case WindowSizeMsg(w) =>
        width := w;
      case OtherMsg =>
    }

    /** The status message Start queues after the spinner tick: Update then marks the process running and changes nothing else. */
    function StartMsg(): (m: Msg)
      ensures m.StatusMsg? && m.id == id && m.status == StatusRunning && m.err == None
      ensures forall s :: Step(s, id, m) == s.(status := StatusRunning)
    {
      StatusMsg(id, StatusRunning, None)
    }

    /**
     * The job Start queues, after processFunc returned `outcome`: the status
     * is set from the outcome, and the same status is sent to the display
     * program when one is attached.
     */
    method RunJob(outcome: Option<string>, attached: bool) returns (sent: Option<Msg>)
      modifies this`Status
      ensures Status == JobStatus(outcome)
      ensures sent == if attached then Some(StatusMsg(id, Status, outcome)) else None
    {
      var status := StatusSuccess;
      if outcome.Some? {
        status := StatusFailed;
      }
      Status := status;
      sent := None;
      if attached {
        sent := Some(StatusMsg(id, status, outcome));
      }
    }

    /**
     * The log lines View prints: none once the process succeeded or is
     * complete, otherwise the last LOGLEN entries (all if fewer), in order.
     */
    method LogTail() returns (shown: seq<string>)
      ensures Status != StatusSuccess && percent < 1.0 ==>
        && |shown| == (if |logs| < LOGLEN then |logs| else LOGLEN)
        && shown == logs[|logs| - |shown|..]
      ensures Status == StatusSuccess || percent >= 1.0 ==> shown == []
    {
      shown := [];
      if Status != StatusSuccess && percent < 1.0 {
        var truncate := 0;
        var loglen := |logs| - LOGLEN;
        if loglen > 0 {
          truncate := loglen;
        }
        var i := truncate;
        while i < |logs|
          invariant truncate <= i <= |logs|
          invariant shown == logs[truncate..i]
        {
          shown := shown + [logs[i]];
          i := i + 1;
        }
      }
    }
  }
}
